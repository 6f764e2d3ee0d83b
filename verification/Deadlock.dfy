// Exactly which runs can get stuck: those with more forks that have children than the pool
// has threads. The schedule that gets there holds every plan that will fork in front of its
// fork as long as possible.
module Deadlock {
  import opened Values
  import opened Filling
  import opened Items
  import opened Semantics
  import opened Scoping
  import opened Machine
  import opened Scheduler
  import opened Queue
  import opened Schedules
  import opened Progress
  import Effort
  import opened Spent
  import opened Steps

  // forks with children in the whole run of a plan; no step changes this
  ghost function Total(w: World, p: Plan): nat { WaitingForks(Meaning(w, p.config).st.log) }

  // a child its parent has to wait for, and as long as `last` is not set one that will fork
  ghost predicate Blocks(w: World, last: bool, kid: Plan) {
    !kid.phase.Counted? && (last || Total(w, kid) > 0)
  }

  ghost predicate Blocked(w: World, last: bool, p: Plan) {
    p.config.Waiting? && p.begun && |p.kids| == |p.config.fork.kids| &&
    exists i :: 0 <= i < |p.kids| && Blocks(w, last, p.kids[i])
  }

  predicate Unforked(p: Plan) { WaitingForks(StateOf(p.config).log) == 0 }

  /** Threads are held only by plans that have just been taken and will fork, and by plans that
      wait for such a plan; plans that do not fork are queued or counted. */
  ghost predicate Calm(w: World, last: bool, root: bool, p: Plan)
    decreases p
  {
    match p.phase
    case Queued => p.config.Process? && p.config.st.log == []
    case Counted => Total(w, p) == 0
    case Reported => false
    case Busy =>
      (p.config.Process? && p.config.st.log == [] && Total(w, p) > 0) ||
      ((root || Unforked(p)) && Blocked(w, last, p) &&
       forall i :: 0 <= i < |p.kids| ==> Calm(w, last, false, p.kids[i]))
  }

  // the same everywhere but at and below the plan at the path
  ghost predicate CalmAround(w: World, last: bool, root: bool, p: Plan, path: Path)
    decreases path
  {
    path == [] ||
    (p.phase.Busy? && (root || Unforked(p)) && Blocked(w, last, p) && path[0] < |p.kids| &&
     CalmAround(w, last, false, p.kids[path[0]], path[1..]) &&
     forall i :: 0 <= i < |p.kids| && i != path[0] ==> Calm(w, last, false, p.kids[i]))
  }

  lemma {:induction false} LookAt(w: World, last: bool, root: bool, p: Plan, path: Path)
    requires Good(w, p) && Calm(w, last, root, p) && At(p, path).Some?
    ensures CalmAround(w, last, root, p, path) && Calm(w, last, root && path == [], At(p, path).value)
    decreases path
  {
    hide LocalGood, Meaning, Total, Blocked, Unforked;
    if path != [] {
      HasKids(w, p);
      LookAt(w, last, false, p.kids[path[0]], path[1..]);
    }
  }

  lemma HasKids(w: World, p: Plan)
    requires Good(w, p) && p.kids != []
    ensures p.config.Waiting? && p.phase.Busy?
  {
    hide Meaning;
    assert LocalGood(w, p) && PhaseOk(p);
  }

  lemma {:induction false} CalmAgain(w: World, last: bool, root: bool, p: Plan, path: Path)
    requires CalmAround(w, last, root, p, path) && At(p, path).Some?
    requires Calm(w, last, root && path == [], At(p, path).value)
    ensures Calm(w, last, root, p)
    decreases path
  {
    hide Total, Blocked, Unforked;
    if path != [] { CalmAgain(w, last, false, p.kids[path[0]], path[1..]); }
  }

  // ---------------------------------------------------------------- one step at a path

  // the plan at the path after a step there
  function After(w: World, path: Path, q: Plan): Option<Plan> {
    if path != [] && q.phase.Reported? then Some(q.(phase := Counted))
    else if path != [] && q.phase.Busy? && q.config.Finished? then
      Some(q.(phase := Reported, success := q.config.o.ok))
    else LocalStep(w, q)
  }

  lemma {:induction false} AtAfter(w: World, p: Plan, path: Path)
    requires MoveAt(w, p, path).Some?
    ensures At(p, path).Some?
    ensures At(MoveAt(w, p, path).value, path) == After(w, path, At(p, path).value)
    decreases path
  {
    hide LocalStep;
    if path != [] {
      MoveShape(w, p, path);
      if !Ending(p, path) { AtAfter(w, p.kids[path[0]], path[1..]); }
    }
  }

  // the step counts the plan
  predicate CountsIt(p: Plan, path: Path) {
    path != [] && At(p, path).Some? && At(p, path).value.phase.Reported?
  }

  // a plan and the same plan with another child at one position
  predicate OneKid(p: Plan, p': Plan, i: nat) {
    i < |p.kids| == |p'.kids| && p'.kids == p.kids[i := p'.kids[i]] &&
    p'.config == p.config && p'.begun == p.begun && p'.phase == p.phase
  }

  lemma KidMoves(w: World, p: Plan, path: Path)
    requires Good(w, p) && path != [] && MoveAt(w, p, path).Some?
    ensures var p', i := MoveAt(w, p, path).value, path[0];
      OneKid(p, p', i) && Total(w, p'.kids[i]) == Total(w, p.kids[i]) && Good(w, p.kids[i]) &&
      (p'.kids[i].phase.Counted? ==> CountsIt(p, path) && At(p, path) == Some(p.kids[i])) &&
      (Ending(p, path) ==> path[1..] == []) && At(p, path) == At(p.kids[i], path[1..]) &&
      (!Ending(p, path) ==> p.kids[i].phase.Busy? && MoveAt(w, p.kids[i], path[1..]) == Some(p'.kids[i]))
  {
    var p', i := MoveAt(w, p, path).value, path[0];
    MoveShape(w, p, path);
    MoveKeepsRoot(w, p, path);
    if Ending(p, path) {
      assert At(p, path) == Some(p.kids[i]) by { assert path[1..] == []; }
    } else {
      MoveKeepsGood(w, p.kids[i], path[1..]);
    }
  }

  lemma KidStaysBlocking(w: World, last: bool, p: Plan, p': Plan, i: nat)
    requires Blocked(w, last, p) && OneKid(p, p', i) && Total(w, p'.kids[i]) == Total(w, p.kids[i])
    requires p'.kids[i].phase.Counted? ==> p.kids[i].phase.Counted? || (!last && Total(w, p.kids[i]) == 0)
    ensures Blocked(w, last, p')
  {
    hide Total;
    var j :| 0 <= j < |p.kids| && Blocks(w, last, p.kids[j]);
    assert Blocks(w, last, p'.kids[j]);
  }

  lemma KidStaysCalm(w: World, last: bool, root: bool, p: Plan, p': Plan, path: Path)
    requires path != [] && CalmAround(w, last, root, p, path) && OneKid(p, p', path[0])
    requires Blocked(w, last, p') && CalmAround(w, last, false, p'.kids[path[0]], path[1..])
    ensures CalmAround(w, last, root, p', path)
  {
    hide Total, Blocked, Calm;
    forall j | 0 <= j < |p.kids| && j != path[0] ensures Calm(w, last, false, p'.kids[j]) {
      assert p'.kids[j] == p.kids[j];
    }
  }

  lemma {:induction false} MoveStaysCalm(w: World, last: bool, root: bool, p: Plan, path: Path)
    requires Good(w, p) && p.phase.Busy? && CalmAround(w, last, root, p, path) && MoveAt(w, p, path).Some?
    requires CountsIt(p, path) ==> !last && Total(w, At(p, path).value) == 0
    ensures CalmAround(w, last, root, MoveAt(w, p, path).value, path)
    decreases path
  {
    if path != [] {
      hide Meaning, MoveAt, Good, Total, Blocked, Calm, Unforked, Ending, At;
      var p', i := MoveAt(w, p, path).value, path[0];
      KidMoves(w, p, path);
      if !Ending(p, path) { MoveStaysCalm(w, last, false, p.kids[i], path[1..]); }
      KidStaysBlocking(w, last, p, p', i);
      KidStaysCalm(w, last, root, p, p', path);
    }
  }

  lemma KidTaken(w: World, p: Plan, path: Path)
    requires Good(w, p) && path != [] && QueuedAt(p, path)
    ensures var p', i := TakeAt(p, path), path[0];
      OneKid(p, p', i) && Total(w, p'.kids[i]) == Total(w, p.kids[i]) && Good(w, p.kids[i]) &&
      p'.kids[i] == TakeAt(p.kids[i], path[1..]) && QueuedAt(p.kids[i], path[1..]) &&
      At(p, path) == At(p.kids[i], path[1..]) && At(p', path) == At(p'.kids[i], path[1..]) &&
      (p'.kids[i].phase.Counted? ==> p.kids[i].phase.Counted?)
  {
    TakeKeepsGood(w, p.kids[path[0]], path[1..]);
  }

  lemma {:induction false} TakeStaysCalm(w: World, last: bool, root: bool, p: Plan, path: Path)
    requires Good(w, p) && CalmAround(w, last, root, p, path) && QueuedAt(p, path)
    ensures CalmAround(w, last, root, TakeAt(p, path), path)
    ensures var q := At(p, path).value;
      At(TakeAt(p, path), path) == Some(q.(phase := Busy, taken := q.taken + 1))
    decreases path
  {
    hide Meaning, Good, Total, Blocked, Calm, Unforked;
    if path != [] {
      hide TakeAt, QueuedAt, At;
      var p', i := TakeAt(p, path), path[0];
      KidTaken(w, p, path);
      TakeStaysCalm(w, last, false, p.kids[i], path[1..]);
      KidStaysBlocking(w, last, p, p', i);
      KidStaysCalm(w, last, root, p, p', path);
    }
  }

  // ---------------------------------------------------------------- threads in use

  function Threads(p: Plan): nat { Workers(p.kids) + if Held(p) then 1 else 0 }

  lemma {:induction false} WorkersUpdate(kids: seq<Plan>, i: nat, kid: Plan)
    requires i < |kids|
    ensures Workers(kids[i := kid]) == Workers(kids) + Threads(kid) - Threads(kids[i])
    decreases |kids|
  {
    var front := kids[..|kids| - 1];
    if i == |kids| - 1 {
      assert kids[i := kid][..|kids| - 1] == front;
    } else {
      assert kids[i := kid][..|kids| - 1] == front[i := kid];
      WorkersUpdate(front, i, kid);
    }
  }

  lemma {:induction false} MoveKeepsWorkers(w: World, p: Plan, path: Path)
    requires Good(w, p) && p.phase.Busy? && MoveAt(w, p, path).Some?
    requires At(p, path).Some? && At(p, path).value.phase.Busy? && !At(p, path).value.config.Finished?
    requires LocalStep(w, At(p, path).value).Some? ==>
      Workers(LocalStep(w, At(p, path).value).value.kids) == Workers(At(p, path).value.kids)
    ensures Workers(MoveAt(w, p, path).value.kids) == Workers(p.kids)
    decreases path
  {
    if path != [] {
      var p', i := MoveAt(w, p, path).value, path[0];
      MoveShape(w, p, path);
      assert !Ending(p, path) by { if |path| == 1 { assert path[1..] == []; } }
      MoveKeepsGood(w, p.kids[i], path[1..]);
      MoveKeepsWorkers(w, p.kids[i], path[1..]);
      hide Meaning, MoveAt, Good, LocalStep;
      WorkersUpdate(p.kids, i, p'.kids[i]);
    }
  }

  // children that are still in the queue
  predicate Fresh(kids: seq<Plan>) {
    forall i :: 0 <= i < |kids| ==>
      kids[i].phase.Queued? && kids[i].config.Process? && kids[i].config.st.log == [] && kids[i].kids == []
  }

  lemma {:induction false} FreshUseNoThread(kids: seq<Plan>)
    requires Fresh(kids)
    ensures Workers(kids) == 0
    decreases |kids|
  {
    if kids != [] { FreshUseNoThread(kids[..|kids| - 1]); }
  }

  // ---------------------------------------------------------------- up to the fork

  // the plan is at its fork and all children are in the queue
  predicate AtFork(q: Plan) { AtWait(q) && q.begun && |q.kids| == |q.config.fork.kids| }

  // the plan has not gone beyond its first fork with children
  predicate Loose(q: Plan) { Fresh(q.kids) && (!AtWait(q) ==> q.kids == []) }

  // what a step in front of the fork, or of the fork, does to the plan
  ghost predicate Steadily(w: World, q: Plan, q': Plan) {
    q'.phase == q.phase && Loose(q') && (AtWait(q) ==> q'.config == q.config) &&
    WaitingForks(StateOf(q'.config).log) == WaitingForks(StateOf(q.config).log) && Total(w, q') == Total(w, q)
  }

  lemma LooseProcess(w: World, q: Plan)
    requires LocalGood(w, q) && q.phase.Busy? && Loose(q) && q.config.Process?
    ensures LocalStep(w, q).Some? && Steadily(w, q, LocalStep(w, q).value)
  {
    var c := q.config;
    ProcessKeepsGood(w, q);
    StartItemContinues(w, c.d, c.item, c.st, c.stack);
    RecordPlain(c.st, Entered);
    hide Meaning, StartItem, Eval, WaitingForks, Continues;
  }

  lemma LooseSpawn(w: World, q: Plan)
    requires LocalGood(w, q) && q.phase.Busy? && Loose(q) && CanSpawn(q)
    ensures LocalStep(w, q).Some? && Steadily(w, q, LocalStep(w, q).value)
  {
    hide Meaning, Eval, WaitingForks;
    var q' := LocalStep(w, q).value;
    forall i | 0 <= i < |q'.kids|
      ensures q'.kids[i].phase.Queued? && q'.kids[i].config.Process? && q'.kids[i].config.st.log == []
      ensures q'.kids[i].kids == []
    {
      if i < |q.kids| { assert q'.kids[i] == q.kids[i]; }
    }
  }

  // a fork without children is joined at once and is no wait
  lemma LooseRelease(w: World, q: Plan)
    requires LocalGood(w, q) && q.phase.Busy? && q.config.Waiting? && q.config.fork.kids == [] && q.begun
    ensures LocalStep(w, q).Some? && Steadily(w, q, LocalStep(w, q).value)
  {
    var f, k := q.config.fork, q.config.stack;
    assert q.kids == [] && Number(q.kids, Counted) == 0;
    assert Releasable(q) && !CanSpawn(q);
    ReleaseKeepsGood(w, q);
    var os := Results(q.kids);
    assert os == [];
    JoinWaits(w.host, f, q.isCounter, q.success, os);
    ResumeContinues(w, k, JoinFork(w.host, f, q.isCounter, q.success, os));
    hide Meaning, Eval, Resume, JoinFork, WaitingForks;
    assert WaitingForks(KidLogs([])) == 0 by { NoLogs(); }
  }

  lemma LooseStep(w: World, q: Plan)
    requires LocalGood(w, q) && q.phase.Busy? && Loose(q) && !q.config.Finished? && !AtFork(q)
    ensures LocalStep(w, q).Some? && Steadily(w, q, LocalStep(w, q).value)
  {
    if q.config.Process? {
      LooseProcess(w, q);
    } else if !q.begun {
      hide Meaning, Eval, WaitingForks;
    } else if CanSpawn(q) {
      LooseSpawn(w, q);
    } else {
      LooseRelease(w, q);
    }
  }

  // runs to which the theorems on the scheduler apply
  ghost predicate Sound(w: World, d: nat, f: Fork) {
    FreshKids(f) && SequentialJoin(w.host, f, KidOutcomes(w, d, f)).st.clean
  }

  ghost function Reach(w: World, threads: nat, d: nat, f: Fork, schedule: seq<Choice>): (s: System) {
    Run(w, threads, Start(d, f), schedule)
  }

  // a plan before and after it was driven on alone
  ghost predicate Driven(w: World, last: bool, s: System, s': System, path: Path) {
    At(s.root, path).Some? && At(s'.root, path).Some? && s'.root.phase.Busy? &&
    CalmAround(w, last, true, s'.root, path) && Workers(s'.root.kids) == Workers(s.root.kids) &&
    Effort.Effort(w, s'.root) <= Effort.Effort(w, s.root) &&
    Steadily(w, At(s.root, path).value, At(s'.root, path).value)
  }

  lemma DriveOnce(w: World, threads: nat, s: System, last: bool, path: Path)
    requires GoodSystem(w, s) && CalmAround(w, last, true, s.root, path) && At(s.root, path).Some?
    requires var q := At(s.root, path).value;
      q.phase.Busy? && Loose(q) && !q.config.Finished? && !AtFork(q)
    ensures Next(w, threads, s, Move(path)).Some?
    ensures Driven(w, last, s, Next(w, threads, s, Move(path)).value, path)
    ensures Effort.Effort(w, Next(w, threads, s, Move(path)).value.root) < Effort.Effort(w, s.root)
  {
    var q := At(s.root, path).value;
    PlanIsGood(w, s.root, path);
    LooseStep(w, q);
    hide Meaning, Eval, LocalStep, Good, LocalGood, Total, Blocked, Effort.Effort;
    CanMove(w, s.root, path);
    NextCosts(w, threads, s, path);
    AtAfter(w, s.root, path);
    MoveStaysCalm(w, last, true, s.root, path);
    FreshUseNoThread(q.kids);
    FreshUseNoThread(LocalStep(w, q).value.kids);
    MoveKeepsWorkers(w, s.root, path);
    MoveKeepsPhase(w, s.root, path);
  }

  lemma CanMove(w: World, p: Plan, path: Path)
    requires Good(w, p) && p.phase.Busy? && At(p, path).Some?
    requires At(p, path).value.phase.Busy? && LocalStep(w, At(p, path).value).Some?
    ensures MoveAt(w, p, path).Some?
  {
    hide Meaning, Eval;
    WhoCanMove(w, p, path);
  }

  lemma NextCosts(w: World, threads: nat, s: System, path: Path)
    requires GoodSystem(w, s) && MoveAt(w, s.root, path).Some?
    ensures Next(w, threads, s, Move(path)) ==
      Some(System(MoveAt(w, s.root, path).value, s.queue + Pushed(s.root, path)))
    ensures Effort.Effort(w, MoveAt(w, s.root, path).value) < Effort.Effort(w, s.root)
  {
    hide Meaning, Eval, Effort.Effort;
    Effort.NextCosts(w, threads, s, Move(path));
  }

  lemma MoveKeepsPhase(w: World, p: Plan, path: Path)
    requires Good(w, p) && p.phase.Busy? && MoveAt(w, p, path).Some?
    ensures MoveAt(w, p, path).value.phase.Busy?
  {
    MoveKeepsGood(w, p, path);
  }

  // ---------------------------------------------------------------- runs

  lemma ReachIsGood(w: World, threads: nat, d: nat, f: Fork, schedule: seq<Choice>)
    requires Sound(w, d, f)
    ensures GoodSystem(w, Reach(w, threads, d, f, schedule)) && Reach(w, threads, d, f, schedule).root.phase.Busy?
    ensures Effort.Effort(w, Reach(w, threads, d, f, schedule).root) >= 0
    ensures var c := Reach(w, threads, d, f, schedule).root.config;
      c == Waiting(d, f, Empty) || c.Finished?
  {
    RunIsGood(w, threads, d, f, schedule);
    RootWaits(w, threads, d, f, schedule);
    hide Run, Meaning, Eval, Effort.Effort;
    Effort.EffortBound(w, Reach(w, threads, d, f, schedule).root);
  }

  lemma ReachNext(w: World, threads: nat, d: nat, f: Fork, schedule: seq<Choice>, c: Choice)
    requires Next(w, threads, Reach(w, threads, d, f, schedule), c).Some?
    ensures Reach(w, threads, d, f, schedule + [c]) == Next(w, threads, Reach(w, threads, d, f, schedule), c).value
    ensures schedule <= schedule + [c]
  {
    Extend(w, threads, Start(d, f), schedule, c);
  }

  lemma DrivenOn(w: World, last: bool, s: System, s': System, s'': System, path: Path)
    requires Driven(w, last, s, s', path) && Driven(w, last, s', s'', path)
    ensures Driven(w, last, s, s'', path)
  {
    hide Effort.Effort, CalmAround, Total, Loose, WaitingForks;
  }

  lemma NotDriven(w: World, last: bool, s: System, path: Path)
    requires s.root.phase.Busy? && CalmAround(w, last, true, s.root, path) && At(s.root, path).Some?
    requires Loose(At(s.root, path).value)
    ensures Driven(w, last, s, s, path)
  {
    hide Effort.Effort, CalmAround, Total, Loose, WaitingForks;
  }

  predicate Arrived(q: Plan) { AtFork(q) || q.config.Finished? }

  /** A held plan runs alone until it has ended or all children of its fork are queued. */
  lemma {:induction false} Drive(w: World, threads: nat, d: nat, f: Fork, begin: seq<Choice>, last: bool, path: Path)
    returns (schedule: seq<Choice>)
    requires Sound(w, d, f) && CalmAround(w, last, true, Reach(w, threads, d, f, begin).root, path)
    requires var q := At(Reach(w, threads, d, f, begin).root, path);
      q.Some? && q.value.phase.Busy? && Loose(q.value)
    ensures begin <= schedule
    ensures var s, s' := Reach(w, threads, d, f, begin), Reach(w, threads, d, f, schedule);
      Driven(w, last, s, s', path) && Arrived(At(s'.root, path).value) &&
      (!Arrived(At(s.root, path).value) ==> Effort.Effort(w, s'.root) < Effort.Effort(w, s.root))
    decreases Effort.Effort(w, Reach(w, threads, d, f, begin).root)
  {
    hide Reach, Effort.Effort, CalmAround, Total, Loose, WaitingForks, GoodSystem, Next;
    var s := Reach(w, threads, d, f, begin);
    schedule := begin;
    ReachIsGood(w, threads, d, f, begin);
    NotDriven(w, last, s, path);
    if !Arrived(At(s.root, path).value) {
      DriveOnce(w, threads, s, last, path);
      ReachNext(w, threads, d, f, begin, Move(path));
      var next := begin + [Move(path)];
      schedule := Drive(w, threads, d, f, next, last, path);
      DrivenOn(w, last, s, Reach(w, threads, d, f, next), Reach(w, threads, d, f, schedule), path);
    }
  }

  // ---------------------------------------------------------------- plans that do not fork

  lemma EndOnce(w: World, threads: nat, s: System, path: Path)
    requires GoodSystem(w, s) && CalmAround(w, false, true, s.root, path) && path != [] && At(s.root, path).Some?
    requires var q := At(s.root, path).value;
      (q.phase.Reported? || (q.phase.Busy? && q.config.Finished?)) && Total(w, q) == 0
    ensures Next(w, threads, s, Move(path)).Some?
    ensures var s', q := Next(w, threads, s, Move(path)).value, At(s.root, path).value;
      CalmAround(w, false, true, s'.root, path) && At(s'.root, path) == After(w, path, q) &&
      Effort.Effort(w, s'.root) < Effort.Effort(w, s.root)
  {
    hide Meaning, Eval, LocalStep, Total, Blocked, Effort.Effort;
    PlanIsGood(w, s.root, path);
    assert PhaseOk(At(s.root, path).value);
    WhoCanMove(w, s.root, path);
    NextCosts(w, threads, s, path);
    AtAfter(w, s.root, path);
    MoveStaysCalm(w, false, true, s.root, path);
  }

  /** A plan that has ended without a fork reports and is counted. */
  lemma EndLeaf(w: World, threads: nat, d: nat, f: Fork, begin: seq<Choice>, path: Path) returns (schedule: seq<Choice>)
    requires Sound(w, d, f) && CalmAround(w, false, true, Reach(w, threads, d, f, begin).root, path) && path != []
    requires var q := At(Reach(w, threads, d, f, begin).root, path);
      q.Some? && q.value.phase.Busy? && q.value.config.Finished? && Total(w, q.value) == 0
    ensures begin <= schedule
    ensures var s, s' := Reach(w, threads, d, f, begin), Reach(w, threads, d, f, schedule);
      Calm(w, false, true, s'.root) && Effort.Effort(w, s'.root) < Effort.Effort(w, s.root)
  {
    hide Reach, Effort.Effort, CalmAround, WaitingForks, GoodSystem, Next, At, Meaning;
    var s := Reach(w, threads, d, f, begin);
    ReachIsGood(w, threads, d, f, begin);
    EndOnce(w, threads, s, path);
    ReachNext(w, threads, d, f, begin, Move(path));
    var next := begin + [Move(path)];
    var s1 := Reach(w, threads, d, f, next);
    ReachIsGood(w, threads, d, f, next);
    EndOnce(w, threads, s1, path);
    ReachNext(w, threads, d, f, next, Move(path));
    schedule := next + [Move(path)];
    CalmAgain(w, false, true, Reach(w, threads, d, f, schedule).root, path);
  }

  // ---------------------------------------------------------------- forks that are left

  ghost function Sum(w: World, kids: seq<Plan>): nat {
    if kids == [] then 0 else Sum(w, kids[..|kids| - 1]) + Total(w, kids[|kids| - 1])
  }

  lemma {:induction false} SumIsLogs(w: World, d: nat, starts: seq<Kid>, kids: seq<Plan>, os: seq<Outcome>)
    requires |kids| == |starts| == |os|
    requires forall i :: 0 <= i < |kids| ==>
      Meaning(w, kids[i].config) == os[i]
    ensures Sum(w, kids) == WaitingForks(KidLogs(os))
    decreases |kids|
  {
    hide Meaning, WaitingForks;
    if kids != [] {
      var n := |kids| - 1;
      SumIsLogs(w, d, starts[..n], kids[..n], os[..n]);
      KidLogsWait(os);
    } else {
      NoLogs();
    }
  }

  lemma ForkSum(w: World, p: Plan)
    requires LocalGood(w, p) && AtFork(p)
    ensures Sum(w, p.kids) == WaitingForks(KidLogs(KidOutcomes(w, p.config.d, p.config.fork)))
  {
    hide Eval;
    var d, f := p.config.d, p.config.fork;
    forall i | 0 <= i < |p.kids| ensures Meaning(w, p.kids[i].config) == KidOutcomes(w, d, f)[i] {
      assert KidOk(w, d, f.kids[i], p.kids[i]);
    }
    SumIsLogs(w, d, f.kids, p.kids, KidOutcomes(w, d, f));
  }

  /** The forks with children of a plan at its first one: this fork and those of its children,
      none before and, on a used counter, none after. */
  lemma ForkTotal(w: World, p: Plan)
    requires LocalGood(w, p) && AtFork(p) && Unforked(p)
    ensures Total(w, p) == 1 + Sum(w, p.kids)
  {
    hide Eval, Unwind, WaitingForks, JoinFork, KidOutcomes, ForkOk, PhaseOk, KidLogs, Sum, AllOk;
    var d, f, k := p.config.d, p.config.fork, p.config.stack;
    var os := KidOutcomes(w, d, f);
    var o := SequentialJoin(w.host, f, os);
    ForkSum(w, p);
    CleanWaiting(w, d, f, k);
    JoinWaits(w.host, f, (f.st.counter + |f.kids|) % U32, AllOk(os), os);
    JoinRecords(w.host, f, (f.st.counter + |f.kids|) % U32, AllOk(os), os);
    SpentUnwind(w, k, o);
    assert o.st.counter == |f.kids|;
  }

  lemma {:induction false} SomeTotal(w: World, kids: seq<Plan>) returns (i: nat)
    requires Sum(w, kids) > 0
    ensures i < |kids| && Total(w, kids[i]) > 0
    decreases |kids|
  {
    hide Total;
    var n := |kids| - 1;
    if Total(w, kids[n]) > 0 { i := n; } else { i := SomeTotal(w, kids[..n]); }
  }

  ghost predicate NoneQueued(p: Plan) { forall path :: !QueuedAt(p, path) }

  lemma NoneQueuedBelow(p: Plan, i: nat)
    requires NoneQueued(p) && i < |p.kids|
    ensures NoneQueued(p.kids[i])
  {
    forall path ensures !QueuedAt(p.kids[i], path) {
      assert ([i] + path)[1..] == path;
      assert !QueuedAt(p, [i] + path);
    }
  }

  // with nobody in the queue and more forks left than threads in use, some held plan in front
  // of its fork will fork and so will one of its children
  lemma {:induction false} FindForker(w: World, kids: seq<Plan>) returns (i: nat, path: Path)
    requires forall i :: 0 <= i < |kids| ==> Good(w, kids[i]) && Calm(w, false, false, kids[i]) && NoneQueued(kids[i])
    requires Sum(w, kids) > Workers(kids)
    ensures i < |kids| && At(kids[i], path).Some?
    ensures var q := At(kids[i], path).value;
      q.phase.Busy? && q.config.Process? && q.config.st.log == [] && Total(w, q) >= 2
    decreases kids
  {
    hide Meaning, Total, LocalGood;
    var n := |kids| - 1;
    var last := kids[n];
    assert At(last, []) == Some(last) && !QueuedAt(last, []);
    if Sum(w, kids[..n]) > Workers(kids[..n]) {
      i, path := FindForker(w, kids[..n]);
    } else if last.phase.Busy? && last.config.Process? {
      NoKids(w, last);
      i, path := n, [];
    } else {
      WaitingTotal(w, last);
      forall j | 0 <= j < |last.kids| ensures NoneQueued(last.kids[j]) { NoneQueuedBelow(last, j); }
      var j, tail := FindForker(w, last.kids);
      i, path := n, [j] + tail;
      assert path[1..] == tail;
    }
  }

  lemma NoKids(w: World, p: Plan)
    requires Good(w, p) && p.config.Process?
    ensures p.kids == []
  {
    hide Meaning;
    assert PhaseOk(p);
  }

  // a calm plan that is not queued has no thread and no fork, or waits at its fork
  lemma WaitingTotal(w: World, p: Plan)
    requires Good(w, p) && Calm(w, false, false, p) && !p.phase.Queued? && !(p.phase.Busy? && p.config.Process?)
    ensures p.phase.Counted? ==> Total(w, p) == 0 && p.kids == []
    ensures p.phase.Counted? || (p.phase.Busy? && Total(w, p) == 1 + Sum(w, p.kids))
    ensures forall i :: 0 <= i < |p.kids| ==> Calm(w, false, false, p.kids[i]) && Good(w, p.kids[i])
  {
    hide Meaning, Total, Sum, KidOk;
    assert LocalGood(w, p) && PhaseOk(p);
    if p.phase.Busy? { ForkTotal(w, p); }
  }

  // ---------------------------------------------------------------- the schedule

  // everything is calm and the root waits
  ghost predicate Quiet(w: World, last: bool, s: System) { Calm(w, last, true, s.root) }

  lemma QuietRoot(w: World, threads: nat, d: nat, f: Fork, schedule: seq<Choice>, last: bool)
    requires Sound(w, d, f) && Quiet(w, last, Reach(w, threads, d, f, schedule))
    ensures var p := Reach(w, threads, d, f, schedule).root;
      p.config == Waiting(d, f, Empty) && AtFork(p) && LocalGood(w, p) && Sum(w, p.kids) + 1 == Waits(w, d, f) &&
      forall i :: 0 <= i < |p.kids| ==> Calm(w, last, false, p.kids[i])
  {
    hide Reach, Meaning, Total, Sum, Effort.Effort, Waits;
    ReachIsGood(w, threads, d, f, schedule);
    var p := Reach(w, threads, d, f, schedule).root;
    assert LocalGood(w, p);
    ForkSum(w, p);
    assert Waits(w, d, f) == WaitingForks(KidLogs(KidOutcomes(w, d, f))) + 1 by { WaitsOf(w, d, f); }
  }

  lemma WaitsOf(w: World, d: nat, f: Fork)
    ensures Waits(w, d, f) == WaitingForks(KidLogs(KidOutcomes(w, d, f))) + if f.kids == [] then 0 else 1
  {}

  // a plan that is just taken
  predicate Taken(q: Plan) {
    q.phase.Busy? && q.config.Process? && q.config.st.log == [] && q.kids == []
  }

  lemma TakeHead(w: World, threads: nat, d: nat, f: Fork, begin: seq<Choice>) returns (next: seq<Choice>, path: Path)
    requires Sound(w, d, f) && Quiet(w, false, Reach(w, threads, d, f, begin))
    requires var s := Reach(w, threads, d, f, begin);
      s.queue != [] && Workers(s.root.kids) < threads
    ensures begin <= next && path != []
    ensures var s, s' := Reach(w, threads, d, f, begin), Reach(w, threads, d, f, next);
      CalmAround(w, false, true, s'.root, path) && At(s'.root, path).Some? && Taken(At(s'.root, path).value) &&
      Effort.Effort(w, s'.root) < Effort.Effort(w, s.root)
  {
    hide Reach, Meaning, Total, Effort.Effort, Blocked, LocalGood, Workers;
    var s := Reach(w, threads, d, f, begin);
    ReachIsGood(w, threads, d, f, begin);
    path := s.queue[0];
    assert path in s.queue;
    LookAt(w, false, true, s.root, path);
    TakeStaysCalm(w, false, true, s.root, path);
    PlanIsGood(w, s.root, path);
    NoKids(w, At(s.root, path).value);
    Effort.NextCosts(w, threads, s, Take);
    ReachNext(w, threads, d, f, begin, Take);
    next := begin + [Take];
  }

  // the head of the queue is held, or runs to its end if it does not fork
  lemma TakeOne(w: World, threads: nat, d: nat, f: Fork, begin: seq<Choice>)
    returns (schedule: seq<Choice>)
    requires Sound(w, d, f) && Quiet(w, false, Reach(w, threads, d, f, begin))
    requires var s := Reach(w, threads, d, f, begin);
      s.queue != [] && Workers(s.root.kids) < threads
    ensures begin <= schedule && Quiet(w, false, Reach(w, threads, d, f, schedule))
    ensures Effort.Effort(w, Reach(w, threads, d, f, schedule).root) <
      Effort.Effort(w, Reach(w, threads, d, f, begin).root)
  {
    hide Reach, Effort.Effort, CalmAround, Total, WaitingForks, At;
    var next, path := TakeHead(w, threads, d, f, begin);
    var s := Reach(w, threads, d, f, next);
    var q := At(s.root, path).value;
    schedule := next;
    if Total(w, q) > 0 {
      CalmAgain(w, false, true, s.root, path);
    } else {
      schedule := Drive(w, threads, d, f, next, false, path);
      var s' := Reach(w, threads, d, f, schedule);
      ReachIsGood(w, threads, d, f, schedule);
      PlanIsGood(w, s'.root, path);
      NoWaitsYet(q);
      ArrivedTotal(w, At(s'.root, path).value);
      var front := schedule;
      schedule := EndLeaf(w, threads, d, f, front, path);
    }
  }

  lemma NoWaitsYet(q: Plan)
    requires Taken(q)
    ensures WaitingForks(StateOf(q.config).log) == 0
  {}

  // where a plan has arrived tells whether it forks
  lemma ArrivedTotal(w: World, q: Plan)
    requires Good(w, q) && Arrived(q) && WaitingForks(StateOf(q.config).log) == 0
    ensures q.config.Finished? <==> Total(w, q) == 0
    ensures AtFork(q) ==> Total(w, q) == 1 + Sum(w, q.kids)
  {
    hide WaitingForks, Eval;
    if AtFork(q) { ForkTotal(w, q); }
  }

  lemma NobodyQueued(w: World, s: System)
    requires GoodSystem(w, s) && s.queue == []
    ensures forall i :: 0 <= i < |s.root.kids| ==> NoneQueued(s.root.kids[i])
  {
    hide Meaning, Good;
    assert forall path :: path !in s.queue;
    assert NoneQueued(s.root);
    forall i | 0 <= i < |s.root.kids| ensures NoneQueued(s.root.kids[i]) { NoneQueuedBelow(s.root, i); }
  }

  lemma ForkerInRoot(w: World, threads: nat, d: nat, f: Fork, begin: seq<Choice>) returns (path: Path)
    requires Sound(w, d, f) && Quiet(w, false, Reach(w, threads, d, f, begin)) && Waits(w, d, f) > threads
    requires var s := Reach(w, threads, d, f, begin);
      s.queue == [] && Workers(s.root.kids) < threads
    ensures var s := Reach(w, threads, d, f, begin);
      CalmAround(w, false, true, s.root, path) && At(s.root, path).Some? && Taken(At(s.root, path).value) &&
      Total(w, At(s.root, path).value) >= 2
  {
    hide Reach, Meaning, Total, Effort.Effort, Blocked, LocalGood, Workers, Sum, Waits, WaitingForks;
    var s := Reach(w, threads, d, f, begin);
    ReachIsGood(w, threads, d, f, begin);
    QuietRoot(w, threads, d, f, begin, false);
    NobodyQueued(w, s);
    var i, tail := FindForker(w, s.root.kids);
    path := [i] + tail;
    assert path[1..] == tail && At(s.root, path) == At(s.root.kids[i], tail);
    LookAt(w, false, true, s.root, path);
    PlanIsGood(w, s.root, path);
    NoKids(w, At(s.root, path).value);
  }

  // a held plan with a forking child comes to its fork
  lemma OpenOne(w: World, threads: nat, d: nat, f: Fork, begin: seq<Choice>)
    returns (schedule: seq<Choice>)
    requires Sound(w, d, f) && Quiet(w, false, Reach(w, threads, d, f, begin)) && Waits(w, d, f) > threads
    requires var s := Reach(w, threads, d, f, begin);
      s.queue == [] && Workers(s.root.kids) < threads
    ensures begin <= schedule && Quiet(w, false, Reach(w, threads, d, f, schedule))
    ensures Effort.Effort(w, Reach(w, threads, d, f, schedule).root) <
      Effort.Effort(w, Reach(w, threads, d, f, begin).root)
  {
    hide Reach, Effort.Effort, CalmAround, Total, WaitingForks, At, Waits, Workers;
    var path := ForkerInRoot(w, threads, d, f, begin);
    var s := Reach(w, threads, d, f, begin);
    schedule := Drive(w, threads, d, f, begin, false, path);
    var s' := Reach(w, threads, d, f, schedule);
    var q' := At(s'.root, path).value;
    ReachIsGood(w, threads, d, f, schedule);
    PlanIsGood(w, s'.root, path);
    NoWaitsYet(At(s.root, path).value);
    ArrivedTotal(w, q');
    var i := SomeTotal(w, q'.kids);
    CalmFork(w, false, false, q', i);
    CalmAgain(w, false, true, s'.root, path);
  }

  // a plan whose children are all in the queue
  lemma CalmFork(w: World, last: bool, root: bool, q: Plan, i: nat)
    requires AtFork(q) && q.phase.Busy? && Fresh(q.kids) && (root || Unforked(q))
    requires i < |q.kids| && (last || Total(w, q.kids[i]) > 0)
    ensures Calm(w, last, root, q)
  {
    hide Total, WaitingForks;
    assert Blocks(w, last, q.kids[i]);
  }

  /** As long as a thread is free and more forks are left than threads, one more plan is taken
      or one more is brought to its fork. */
  lemma {:induction false} Starve(w: World, threads: nat, d: nat, f: Fork, begin: seq<Choice>)
    returns (schedule: seq<Choice>)
    requires Sound(w, d, f) && Quiet(w, false, Reach(w, threads, d, f, begin)) && Waits(w, d, f) > threads
    ensures begin <= schedule
    ensures var s := Reach(w, threads, d, f, schedule);
      Quiet(w, false, s) && Workers(s.root.kids) >= threads
    decreases Effort.Effort(w, Reach(w, threads, d, f, begin).root)
  {
    hide Reach, Effort.Effort, Quiet, Waits, Workers, Sound;
    var s := Reach(w, threads, d, f, begin);
    schedule := begin;
    if Workers(s.root.kids) < threads {
      ReachIsGood(w, threads, d, f, begin);
      var next: seq<Choice>;
      if s.queue != [] { next := TakeOne(w, threads, d, f, begin); } else { next := OpenOne(w, threads, d, f, begin); }
      schedule := Starve(w, threads, d, f, next);
    }
  }

  lemma {:induction false} Relax(w: World, root: bool, p: Plan)
    requires Calm(w, false, root, p)
    ensures Calm(w, true, root, p)
    decreases p
  {
    hide Total, Unforked;
    forall i | 0 <= i < |p.kids| && Calm(w, false, false, p.kids[i]) ensures Calm(w, true, false, p.kids[i]) {
      Relax(w, false, p.kids[i]);
    }
    if p.phase.Busy? && Blocked(w, false, p) {
      var i :| 0 <= i < |p.kids| && Blocks(w, false, p.kids[i]);
      assert Blocks(w, true, p.kids[i]);
    }
  }

  predicate AnyTaken(s: System, path: Path) {
    At(s.root, path).Some? && At(s.root, path).value.phase.Busy? && At(s.root, path).value.config.Process?
  }

  // one of the held plans that have not forked comes to its fork; nobody takes the children
  lemma SettleOne(w: World, threads: nat, d: nat, f: Fork, begin: seq<Choice>, path: Path)
    returns (schedule: seq<Choice>)
    requires Sound(w, d, f) && Quiet(w, true, Reach(w, threads, d, f, begin))
    requires AnyTaken(Reach(w, threads, d, f, begin), path)
    ensures begin <= schedule && Quiet(w, true, Reach(w, threads, d, f, schedule))
    ensures var s, s' := Reach(w, threads, d, f, begin), Reach(w, threads, d, f, schedule);
      Workers(s'.root.kids) == Workers(s.root.kids) && Effort.Effort(w, s'.root) < Effort.Effort(w, s.root)
  {
    hide Reach, Effort.Effort, CalmAround, Total, WaitingForks, At, Workers, Blocked, LocalGood, Meaning;
    var s := Reach(w, threads, d, f, begin);
    ReachIsGood(w, threads, d, f, begin);
    LookAt(w, true, true, s.root, path);
    PlanIsGood(w, s.root, path);
    NoKids(w, At(s.root, path).value);
    CalmTaken(w, path == [], At(s.root, path).value);
    schedule := Drive(w, threads, d, f, begin, true, path);
    var s' := Reach(w, threads, d, f, schedule);
    var q' := At(s'.root, path).value;
    ReachIsGood(w, threads, d, f, schedule);
    PlanIsGood(w, s'.root, path);
    NoWaitsYet(At(s.root, path).value);
    ArrivedTotal(w, q');
    CalmFork(w, true, path == [], q', 0);
    CalmAgain(w, true, true, s'.root, path);
  }

  lemma CalmTaken(w: World, root: bool, q: Plan)
    requires Calm(w, true, root, q) && q.phase.Busy? && q.config.Process?
    ensures q.config.st.log == [] && Total(w, q) > 0
  {}

  lemma {:induction false} Settle(w: World, threads: nat, d: nat, f: Fork, begin: seq<Choice>)
    returns (schedule: seq<Choice>)
    requires Sound(w, d, f) && Quiet(w, true, Reach(w, threads, d, f, begin))
    ensures begin <= schedule
    ensures var s, s' := Reach(w, threads, d, f, begin), Reach(w, threads, d, f, schedule);
      Quiet(w, true, s') && Workers(s'.root.kids) == Workers(s.root.kids) && forall path :: !AnyTaken(s', path)
    decreases Effort.Effort(w, Reach(w, threads, d, f, begin).root)
  {
    hide Reach, Effort.Effort, Quiet, Workers, Sound, AnyTaken;
    var s := Reach(w, threads, d, f, begin);
    schedule := begin;
    if path :| AnyTaken(s, path) {
      ReachIsGood(w, threads, d, f, begin);
      var next := SettleOne(w, threads, d, f, begin, path);
      schedule := Settle(w, threads, d, f, next);
    }
  }

  lemma BlockedSleeps(w: World, p: Plan)
    requires LocalGood(w, p) && Blocked(w, true, p)
    ensures Asleep(p)
  {
    hide Meaning, Total;
    NumberBound(p.kids, Counted);
  }

  // when every thread holds a plan at its fork, the system is stuck
  lemma SettledIsStuck(w: World, threads: nat, s: System)
    requires GoodSystem(w, s) && s.root.config.Waiting? && Quiet(w, true, s) && Workers(s.root.kids) >= threads
    requires forall path :: !AnyTaken(s, path)
    ensures Stuck(w, threads, s)
  {
    hide Meaning, LocalGood, Total, Blocked, Workers;
    forall path | At(s.root, path).Some? && Held(At(s.root, path).value) ensures Asleep(At(s.root, path).value) {
      var q := At(s.root, path).value;
      LookAt(w, true, true, s.root, path);
      PlanIsGood(w, s.root, path);
      assert !AnyTaken(s, path);
      BlockedSleeps(w, q);
    }
    StuckExactly(w, threads, s);
  }

  // ---------------------------------------------------------------- theorem

  // the calling thread pushes all children of the root fork
  lemma PushAll(w: World, threads: nat, d: nat, f: Fork) returns (schedule: seq<Choice>)
    requires Sound(w, d, f) && f.kids != []
    ensures var p := Reach(w, threads, d, f, schedule).root;
      p.config == Waiting(d, f, Empty) && AtFork(p) && Fresh(p.kids) && p.phase.Busy?
  {
    var s := Reach(w, threads, d, f, []);
    assert s == Start(d, f) && At(s.root, []) == Some(s.root);
    hide Meaning, Effort.Effort, Total, WaitingForks;
    schedule := Drive(w, threads, d, f, [], true, []);
    var s' := Reach(w, threads, d, f, schedule);
    assert At(s'.root, []) == Some(s'.root);
  }

  lemma GetStuck(w: World, threads: nat, d: nat, f: Fork) returns (schedule: seq<Choice>)
    requires Sound(w, d, f) && Waits(w, d, f) > threads
    ensures var s := Reach(w, threads, d, f, schedule);
      !s.root.config.Finished? && Stuck(w, threads, s)
  {
    hide Reach, Effort.Effort, CalmAround, Total, WaitingForks, At, Workers, Blocked, Meaning, Stuck, KidLogs;
    hide KidOutcomes;
    if f.kids == [] { NoWaitsAlone(w, d, f); }
    schedule := PushAll(w, threads, d, f);
    var p := Reach(w, threads, d, f, schedule).root;
    CalmFork(w, true, true, p, 0);
    QuietRoot(w, threads, d, f, schedule, true);
    if threads > 0 {
      var i := SomeTotal(w, p.kids);
      CalmFork(w, false, true, p, i);
      schedule := Starve(w, threads, d, f, schedule);
      Relax(w, true, Reach(w, threads, d, f, schedule).root);
    }
    schedule := Settle(w, threads, d, f, schedule);
    ReachIsGood(w, threads, d, f, schedule);
    QuietRoot(w, threads, d, f, schedule, true);
    SettledIsStuck(w, threads, Reach(w, threads, d, f, schedule));
  }

  lemma NoWaitsAlone(w: World, d: nat, f: Fork)
    requires f.kids == []
    ensures Waits(w, d, f) == 0
  {
    assert KidOutcomes(w, d, f) == [];
    NoLogs();
  }

  // a run that comes to a state before its end in which no thread can move
  ghost predicate GetsStuck(w: World, threads: nat, d: nat, f: Fork, schedule: seq<Choice>) {
    var s := Run(w, threads, Start(d, f), schedule);
    !s.root.config.Finished? && Stuck(w, threads, s)
  }

  /** Some schedule gets stuck exactly when the whole run has more forks with children than the
      pool has threads. */
  lemma DeadlockExactly(w: World, threads: nat, d: nat, f: Fork)
    requires FreshKids(f) && SequentialJoin(w.host, f, KidOutcomes(w, d, f)).st.clean
    ensures (exists schedule :: GetsStuck(w, threads, d, f, schedule)) <==> Waits(w, d, f) > threads
    ensures WaitingForks(SequentialJoin(w.host, f, KidOutcomes(w, d, f)).st.log) ==
      WaitingForks(f.st.log) + Waits(w, d, f)
  {
    hide JoinFork, WaitingForks, KidOutcomes;
    var os := KidOutcomes(w, d, f);
    JoinWaits(w.host, f, (f.st.counter + |f.kids|) % U32, AllOk(os), os);
    if Waits(w, d, f) > threads {
      var schedule := GetStuck(w, threads, d, f);
      assert GetsStuck(w, threads, d, f, schedule);
    } else {
      forall schedule ensures !GetsStuck(w, threads, d, f, schedule) {
        NoDeadlock(w, threads, d, f, schedule);
      }
    }
  }

  // nested parallel()-parts fork once each
  lemma {:induction false} NestedForks(w: World, d: nat, n: nat, st: PlanState)
    requires st.counter == 0 && st.clean
    ensures var o := Eval(w, d, Nested(n), st);
      o.st.clean && WaitingForks(o.st.log) == WaitingForks(st.log) + n
    decreases n, 0
  {
    hide WaitingForks;
    RecordPlain(st, Entered);
    EvalOf(w, d, Nested(n), st);
    if n == 0 {
      hide Eval;
      assert EvalParts(w, d, [], Record(st, Entered)) == Outcome(true, Record(st, Entered));
    } else {
      hide Eval, JoinFork;
      OneBranch(w, d, n - 1, Record(st, Entered), Nested(n));
    }
  }

  lemma {:induction false} OneBranch(w: World, d: nat, n: nat, st: PlanState, parent: Item)
    requires st.counter == 0 && st.clean && ForkOf(parent, ForkIn(n, st))
    ensures var o := EvalFork(w, d, parent, ForkIn(n, st));
      o.st.clean && WaitingForks(o.st.log) == WaitingForks(st.log) + n + 1
    ensures Sound(w, d, ForkIn(n, st)) && Waits(w, d, ForkIn(n, st)) == n + 1
    decreases n, 1
  {
    hide Eval, WaitingForks, JoinFork;
    var f := ForkIn(n, st);
    var os := EvalKids(w, d, parent, f);
    assert KidOutcomes(w, d, f) == os && os[..0] == [];
    NestedForks(w, d, n, ChildOf(st));
    NoLogs();
    KidLogsWait(os);
    JoinWaits(w.host, f, (f.st.counter + |f.kids|) % U32, AllOk(os), os);
    JoinRecords(w.host, f, (f.st.counter + |f.kids|) % U32, AllOk(os), os);
    assert WaitingForks((ChildOf(st)).log) == 0 by { NoLogs(); }
  }

  /** So for every pool size a tree can be written that gets stuck: as many nested forks below
      the first one as there are threads. */
  lemma DeadlockExists(w: World, threads: nat, d: nat, st: PlanState)
    requires st.counter == 0 && st.clean
    ensures exists schedule :: GetsStuck(w, threads, d, ForkIn(threads, st), schedule)
  {
    OneBranch(w, d, threads, st, Item(Sequential, [Nested(threads)]));
    DeadlockExactly(w, threads, d, ForkIn(threads, st));
  }
}
