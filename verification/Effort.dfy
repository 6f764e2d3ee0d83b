// Every run of the scheduler ends: a measure that falls with each step.
module Effort {
  import opened Filling
  import opened Items
  import opened Semantics
  import opened Scoping
  import opened Machine
  import opened Scheduler
  import opened Queue
  import opened Schedules
  import opened Progress

  // events the big-step semantics still adds
  ghost function Rest(w: World, c: Config): int {
    |Meaning(w, c).st.log| - |StateOf(c).log|
  }

  // steps of the thread of a plan and of everything it has forked and will fork
  ghost function Body(w: World, p: Plan): int
    decreases p, 0
  {
    match p.config
    case Finished(_) => 0
    case Process(_, _, _, _) => 4 * Rest(w, p.config)
    case Waiting(d, f, _) =>
      var os := KidOutcomes(w, d, f);
      4 * (Rest(w, p.config) - 1 - |KidLogs(os)|) + (if p.begun then 1 else 2) + KidsEffort(w, p.kids) +
        4 * (|KidLogs(os)| - |KidLogs(if |p.kids| <= |os| then os[..|p.kids|] else os)|)
  }

  ghost function Effort(w: World, p: Plan): int
    decreases p, 1
  {
    match p.phase
    case Queued => 3 + Body(w, p)
    case Busy => 2 + Body(w, p)
    case Reported => 1
    case Counted => 0
  }

  ghost function KidsEffort(w: World, kids: seq<Plan>): int
    decreases kids
  {
    if kids == [] then 0 else KidsEffort(w, kids[..|kids| - 1]) + Effort(w, kids[|kids| - 1])
  }

  lemma {:induction false} KidsEffortUpdate(w: World, kids: seq<Plan>, i: nat, kid: Plan)
    requires i < |kids|
    ensures KidsEffort(w, kids[i := kid]) == KidsEffort(w, kids) + Effort(w, kid) - Effort(w, kids[i])
    decreases |kids|
  {
    hide Effort;
    var front := kids[..|kids| - 1];
    if i == |kids| - 1 {
      assert kids[i := kid][..|kids| - 1] == front;
    } else {
      assert kids[i := kid][..|kids| - 1] == front[i := kid];
      KidsEffortUpdate(w, front, i, kid);
    }
  }

  lemma {:induction false} CountedEffort(w: World, kids: seq<Plan>)
    requires forall i :: 0 <= i < |kids| ==> kids[i].phase.Counted?
    ensures KidsEffort(w, kids) == 0
    decreases |kids|
  {
    if kids != [] { CountedEffort(w, kids[..|kids| - 1]); }
  }

  lemma {:induction false} KidLogsPrefix(os: seq<Outcome>, n: nat)
    requires n <= |os|
    ensures |KidLogs(os[..n])| <= |KidLogs(os)|
    ensures n < |os| ==> |KidLogs(os[..n + 1])| == |KidLogs(os[..n])| + 1 + |os[n].st.log|
    decreases |os|
  {
    if n < |os| {
      assert os[..n + 1][..n] == os[..n];
      if n + 1 < |os| {
        var front := os[..|os| - 1];
        KidLogsPrefix(front, n);
        assert front[..n] == os[..n];
      } else {
        assert os[..n + 1] == os;
      }
    } else {
      assert os[..n] == os;
    }
  }

  // what is left of the log is never negative
  lemma RestBound(w: World, p: Plan)
    requires LocalGood(w, p)
    ensures Rest(w, p.config) >= 0
    ensures p.config.Waiting? ==>
      Rest(w, p.config) >= 1 + |KidLogs(KidOutcomes(w, p.config.d, p.config.fork))|
  {
    hide Eval, Unwind, LocalGood;
    match p.config
    case Finished(_) =>
    case Process(d, item, st, k) =>
      EvalScoped(w, d, item, st);
      UnwindScoped(w, k, Eval(w, d, item, st));
    case Waiting(d, f, k) =>
      var os := KidOutcomes(w, d, f);
      JoinRecords(w.host, f, (f.st.counter + |f.kids|) % U32, AllOk(os), os);
      UnwindScoped(w, k, SequentialJoin(w.host, f, os));
  }

  lemma {:induction false} EffortBound(w: World, p: Plan)
    requires Good(w, p)
    ensures Effort(w, p) >= 0
    decreases p
  {
    RestBound(w, p);
    hide Meaning, Eval;
    if p.config.Waiting? {
      var os := KidOutcomes(w, p.config.d, p.config.fork);
      KidLogsPrefix(os, |p.kids|);
      KidsEffortBound(w, p.kids);
    }
  }

  lemma {:induction false} KidsEffortBound(w: World, kids: seq<Plan>)
    requires forall i :: 0 <= i < |kids| ==> Good(w, kids[i])
    ensures KidsEffort(w, kids) >= 0
    decreases kids
  {
    if kids != [] {
      KidsEffortBound(w, kids[..|kids| - 1]);
      EffortBound(w, kids[|kids| - 1]);
    }
  }

  // ---------------------------------------------------------------- each step costs

  lemma ProcessCosts(w: World, p: Plan)
    requires LocalGood(w, p) && p.phase.Busy? && p.config.Process?
    ensures Effort(w, LocalStep(w, p).value) < Effort(w, p)
  {
    var c, p' := p.config, LocalStep(w, p).value;
    ProcessKeepsGood(w, p);
    StartItemContinues(w, c.d, c.item, c.st, c.stack);
    hide Meaning, Eval, StartItem, LocalGood;
    assert |StateOf(p'.config).log| >= |c.st.log| + 1;
    assert Rest(w, p'.config) <= Rest(w, c) - 1;
    RestBound(w, p');
    assert p'.kids == [];
    if p'.config.Waiting? {
      var os := KidOutcomes(w, p'.config.d, p'.config.fork);
      assert KidLogs(os[..0]) == [] by { assert os[..0] == []; }
      assert Body(w, p') == 4 * Rest(w, p'.config) - 2;
    }
  }

  lemma SpawnCosts(w: World, p: Plan)
    requires CanSpawn(p) && p.phase.Busy? && FreshKids(p.config.fork)
    ensures Effort(w, LocalStep(w, p).value) < Effort(w, p)
  {
    hide Meaning, Eval;
    var d, f, n, p' := p.config.d, p.config.fork, |p.kids|, LocalStep(w, p).value;
    var kid := NewPlan(f.kids[n], d);
    var os := KidOutcomes(w, d, f);
    NewPlanMeaning(w, d, f.kids[n]);
    KidLogsPrefix(os, n);
    hide LocalGood, KidLogs;
    assert Effort(w, kid) == 3 + 4 * |os[n].st.log|;
    assert p'.kids[..n] == p.kids;
    assert KidsEffort(w, p'.kids) == KidsEffort(w, p.kids) + Effort(w, kid);
  }

  lemma ReleaseCosts(w: World, p: Plan)
    requires LocalGood(w, p) && p.phase.Busy? && Releasable(p) && !CanSpawn(p)
    ensures Effort(w, LocalStep(w, p).value) < Effort(w, p)
  {
    hide Eval, Unwind;
    var d, f, k, p' := p.config.d, p.config.fork, p.config.stack, LocalStep(w, p).value;
    var os := KidOutcomes(w, d, f);
    ReleaseKeepsGood(w, p);
    JoinMeaning(w, p);
    CountedEffort(w, p.kids);
    JoinRecords(w.host, f, p.isCounter, p.success, os);
    var o := JoinFork(w.host, f, p.isCounter, p.success, os);
    ResumeContinues(w, k, o);
    ResumeEndsFork(w, k, o);
    RestBound(w, p');
    hide Meaning, Eval, JoinFork, Resume, LocalGood;
    assert os[..|p.kids|] == os;
    assert Rest(w, p'.config) <= Rest(w, p.config) - 1 - |KidLogs(os)|;
  }

  lemma {:induction false} ResumeEndsFork(w: World, k: Stack, o: Outcome)
    ensures !Resume(w, k, o).Waiting?
    decreases k
  {
    if k.Push? {
      match k.top
      case PartsFrame(d, rest) => ResumeEndsFork(w, k.below, o);
      case TreeFrame(path) => ResumeEndsFork(w, k.below, CloseTree(path, o));
      case CallFrame(backup, called) => ResumeEndsFork(w, k.below, FinishCall(w.host, backup, called, o));
      case LoopFrame(d, content, tempVar, range, backup) => ResumeEndsFork(w, k.below, FinishLoop(backup, o));
    }
  }

  lemma LocalCosts(w: World, p: Plan)
    requires LocalGood(w, p) && p.phase.Busy? && LocalStep(w, p).Some?
    ensures Effort(w, LocalStep(w, p).value) < Effort(w, p)
  {
    if p.config.Process? {
      ProcessCosts(w, p);
    } else if CanSpawn(p) {
      SpawnCosts(w, p);
    } else if p.begun {
      ReleaseCosts(w, p);
    } else {
      hide Meaning, Eval;
    }
  }

  // a cheaper child makes a cheaper plan
  lemma KidCosts(w: World, p: Plan, i: nat, p': Plan)
    requires LocalGood(w, p) && p.phase.Busy? && i < |p.kids| == |p'.kids|
    requires p' == p.(kids := p.kids[i := p'.kids[i]], isCounter := p'.isCounter, counted := p'.counted,
                      success := p'.success)
    requires Effort(w, p'.kids[i]) < Effort(w, p.kids[i])
    ensures Effort(w, p') < Effort(w, p)
  {
    KidsEffortUpdate(w, p.kids, i, p'.kids[i]);
    hide Meaning, Eval, KidsEffort;
    assert p.config.Waiting? && p'.config == p.config;
    assert KidsEffort(w, p'.kids) < KidsEffort(w, p.kids);
  }

  lemma {:induction false} MoveCosts(w: World, p: Plan, path: Path)
    requires Good(w, p) && p.phase.Busy? && MoveAt(w, p, path).Some?
    ensures Effort(w, MoveAt(w, p, path).value) < Effort(w, p)
    decreases path
  {
    hide Meaning, Eval, Rest, KidsEffort, LocalStep;
    if path == [] {
      LocalCosts(w, p);
    } else {
      var i, p' := path[0], MoveAt(w, p, path).value;
      var kid := p.kids[i];
      if !Ending(p, path) { MoveCosts(w, kid, path[1..]); }
      assert Effort(w, p'.kids[i]) < Effort(w, kid);
      KidCosts(w, p, i, p');
    }
  }

  lemma {:induction false} TakeCosts(w: World, p: Plan, path: Path)
    requires Good(w, p) && QueuedAt(p, path) && (path == [] || p.phase.Busy?)
    ensures Effort(w, TakeAt(p, path)) < Effort(w, p)
    decreases path
  {
    hide Meaning, Eval, Rest, KidsEffort, LocalStep;
    if path == [] {
      assert TakeAt(p, path).kids == p.kids;
      assert Body(w, TakeAt(p, path)) == Body(w, p);
    } else {
      var kid := p.kids[path[0]];
      if |path| > 1 { ParentsAreBusy(w, p, path); assert Good(w, kid) && kid.kids != []; }
      TakeCosts(w, kid, path[1..]);
      KidCosts(w, p, path[0], TakeAt(p, path));
    }
  }

  lemma NextCosts(w: World, threads: nat, s: System, c: Choice)
    requires GoodSystem(w, s) && Next(w, threads, s, c).Some?
    ensures Effort(w, Next(w, threads, s, c).value.root) < Effort(w, s.root)
  {
    hide Meaning, Eval, Effort, Workers;
    match c
    case Move(path) => MoveCosts(w, s.root, path);
    case Take =>
      assert s.queue[0] in s.queue;
      TakeCosts(w, s.root, s.queue[0]);
  }

  // ---------------------------------------------------------------- theorem

  // the steps of a schedule that really move a thread
  function Moves(w: World, threads: nat, s: System, schedule: seq<Choice>): nat
    decreases |schedule|
  {
    if schedule == [] then 0
    else
      var front := schedule[..|schedule| - 1];
      Moves(w, threads, s, front) +
        if IsEnabled(w, threads, Run(w, threads, s, front), schedule[|schedule| - 1]) then 1 else 0
  }

  /** No run moves more often than the effort of its start: apart from idle sleeping,
      every schedule reaches the end or a stuck state. */
  lemma {:induction false} RunsEnd(w: World, threads: nat, d: nat, f: Fork, schedule: seq<Choice>)
    requires FreshKids(f) && SequentialJoin(w.host, f, KidOutcomes(w, d, f)).st.clean
    ensures Moves(w, threads, Start(d, f), schedule) <= Effort(w, Start(d, f).root)
    ensures Moves(w, threads, Start(d, f), schedule) + Effort(w, Run(w, threads, Start(d, f), schedule).root)
         <= Effort(w, Start(d, f).root)
    decreases |schedule|
  {
    var start := Start(d, f);
    RunIsGood(w, threads, d, f, schedule);
    EffortBound(w, Run(w, threads, start, schedule).root);
    if schedule != [] {
      var front, c := schedule[..|schedule| - 1], schedule[|schedule| - 1];
      RunsEnd(w, threads, d, f, front);
      RunIsGood(w, threads, d, f, front);
      hide Meaning, Eval, Effort, Next, Start;
      var before := Run(w, threads, start, front);
      if Next(w, threads, before, c).Some? { NextCosts(w, threads, before, c); }
    }
  }
}
