// When the scheduler can get stuck, and why every run ends.
module Progress {
  import opened Values
  import opened Filling
  import opened Items
  import opened Semantics
  import opened Scoping
  import opened Machine
  import opened Scheduler
  import opened Queue
  import opened Schedules

  // ---------------------------------------------------------------- who can move

  // a thread in waitUntilFinish with nothing to wait off yet
  predicate Asleep(p: Plan) { p.config.Waiting? && p.begun && !CanSpawn(p) && !Releasable(p) }

  // the plan is held by a thread
  predicate Held(p: Plan) { p.phase.Busy? || p.phase.Reported? }

  predicate IsEnabled(w: World, threads: nat, s: System, c: Choice) { Next(w, threads, s, c).Some? }

  ghost predicate Stuck(w: World, threads: nat, s: System) {
    forall c :: !IsEnabled(w, threads, s, c)
  }

  lemma {:induction false} WhoCanMove(w: World, p: Plan, path: Path)
    requires Good(w, p) && p.phase.Busy?
    ensures MoveAt(w, p, path).Some? <==>
      At(p, path).Some? && Held(At(p, path).value) && !Asleep(At(p, path).value) &&
      !(path == [] && p.config.Finished?)
    decreases path
  {
    hide Meaning, Eval, StartItem, Resume, JoinFork;
    if path != [] && path[0] < |p.kids| {
      var kid := p.kids[path[0]];
      assert Good(w, kid) && LocalGood(w, kid) && PhaseOk(kid);
      if Ending(p, path) {
        assert At(p, path) == Some(kid) by { assert path[1..] == []; }
      } else if kid.phase.Busy? {
        WhoCanMove(w, kid, path[1..]);
      } else {
        assert kid.kids == [];
      }
    }
  }

  lemma UncountedChild(w: World, p: Plan) returns (i: nat)
    requires LocalGood(w, p) && Asleep(p)
    ensures i < |p.kids| && !p.kids[i].phase.Counted? && PhaseOk(p.kids[i])
  {
    hide Meaning, Eval;
    NumberBound(p.kids, Counted);
    i :| 0 <= i < |p.kids| && !p.kids[i].phase.Counted?;
    assert KidOk(w, p.config.d, p.config.fork.kids[i], p.kids[i]);
  }

  // below a plan that is not done somebody can move or some plan is queued
  lemma {:induction false} SomebodyBelow(w: World, p: Plan) returns (path: Path)
    requires Good(w, p) && p.phase.Busy? && !p.config.Finished?
    ensures MoveAt(w, p, path).Some? || QueuedAt(p, path)
  {
    hide Meaning, Eval, StartItem, Resume, JoinFork, LocalGood;
    path := [];
    if Asleep(p) {
      var i := UncountedChild(w, p);
      var kid := p.kids[i];
      if kid.phase.Busy? && !kid.config.Finished? {
        path := SomebodyBelow(w, kid);
      }
      assert ([i] + path)[1..] == path;
      assert MoveAt(w, kid, path).Some? && kid.phase.Busy? && !kid.config.Finished? ==> MoveAt(w, p, [i] + path).Some?;
      assert At(p, [i] + path) == At(kid, path);
      path := [i] + path;
    } else {
      assert LocalStep(w, p).Some?;
    }
  }

  // ---------------------------------------------------------------- stuck states

  // every thread on this plan or below sleeps
  ghost predicate AllAsleep(p: Plan) {
    forall path :: At(p, path).Some? && Held(At(p, path).value) ==> Asleep(At(p, path).value)
  }

  /** A state before the end of the root plan is stuck exactly when all threads of the pool
      hold plans and every held plan sleeps in waitUntilFinish. */
  lemma StuckExactly(w: World, threads: nat, s: System)
    requires GoodSystem(w, s) && !s.root.config.Finished?
    ensures Stuck(w, threads, s) <==> Workers(s.root.kids) >= threads && AllAsleep(s.root)
  {
    hide Meaning, Eval, MoveAt, Workers;
    if Stuck(w, threads, s) {
      forall path | At(s.root, path).Some? && Held(At(s.root, path).value) ensures Asleep(At(s.root, path).value) {
        assert !IsEnabled(w, threads, s, Move(path));
        WhoCanMove(w, s.root, path);
      }
      var path := SomebodyBelow(w, s.root);
      assert !IsEnabled(w, threads, s, Move(path)) && !IsEnabled(w, threads, s, Take);
      assert path in s.queue;
    } else {
      var c :| IsEnabled(w, threads, s, c);
      if c.Move? { WhoCanMove(w, s.root, c.path); }
    }
  }

  // plans below that wait for children, at forks that have any
  function Sleepers(kids: seq<Plan>): nat {
    if kids == [] then 0
    else
      var last := kids[|kids| - 1];
      Sleepers(kids[..|kids| - 1]) + Sleepers(last.kids) + if AtWait(last) then 1 else 0
  }

  predicate AtWait(p: Plan) { p.config.Waiting? && p.config.fork.kids != [] }

  lemma AsleepBelow(p: Plan, i: nat)
    requires AllAsleep(p) && i < |p.kids|
    ensures AllAsleep(p.kids[i])
  {
    forall path | At(p.kids[i], path).Some? && Held(At(p.kids[i], path).value)
      ensures Asleep(At(p.kids[i], path).value)
    {
      assert ([i] + path)[1..] == path;
      assert At(p, [i] + path) == At(p.kids[i], path);
    }
  }

  // a fork without children is joined at once
  lemma AsleepAtWait(w: World, p: Plan)
    requires LocalGood(w, p) && Asleep(p)
    ensures AtWait(p)
  {
    hide Meaning, Eval;
    NumberBound(p.kids, Counted);
  }

  lemma {:induction false} AllHeldSleep(w: World, kids: seq<Plan>)
    requires forall i :: 0 <= i < |kids| ==> AllAsleep(kids[i]) && Good(w, kids[i])
    ensures Workers(kids) <= Sleepers(kids)
  {
    hide LocalGood;
    if kids != [] {
      var n := |kids| - 1;
      AllHeldSleep(w, kids[..n]);
      forall i | 0 <= i < |kids[n].kids| ensures AllAsleep(kids[n].kids[i]) { AsleepBelow(kids[n], i); }
      AllHeldSleep(w, kids[n].kids);
      assert At(kids[n], []) == Some(kids[n]);
      if Held(kids[n]) { AsleepAtWait(w, kids[n]); }
    }
  }

  // children of a fork wait in no more places than the fork's run waits
  lemma {:induction false} SleepersBound(w: World, d: nat, starts: seq<Kid>, kids: seq<Plan>, os: seq<Outcome>)
    requires |kids| <= |starts| == |os|
    requires forall i :: 0 <= i < |kids| ==> Good(w, kids[i]) && KidOk(w, d, starts[i], kids[i])
    requires forall i :: 0 <= i < |os| ==> os[i] == Eval(w, d, starts[i].item, starts[i].st)
    ensures Sleepers(kids) <= WaitingForks(KidLogs(os))
    decreases kids, |os|
  {
    hide Meaning, Eval, Good, PhaseOk, WaitingForks, KidLogs, AtWait;
    if os == [] {
      NoLogs();
    } else {
      var n := |os| - 1;
      KidLogsWait(os);
      if |kids| < |os| {
        SleepersBound(w, d, starts[..n], kids, os[..n]);
      } else {
        SleepersBound(w, d, starts[..n], kids[..n], os[..n]);
        assert KidOk(w, d, starts[n], kids[n]);
        WaitsBound(w, kids[n]);
      }
    }
  }

  lemma NoLogs()
    ensures WaitingForks(KidLogs([])) == 0
  {}

  lemma KidLogsWait(os: seq<Outcome>)
    requires os != []
    ensures WaitingForks(KidLogs(os)) ==
      WaitingForks(KidLogs(os[..|os| - 1])) + WaitingForks(os[|os| - 1].st.log)
  {
    var front := KidLogs(os[..|os| - 1]);
    WaitingForksAppend(front + [Started], os[|os| - 1].st.log);
    WaitingForksOne(front, Started);
  }

  // the forks with children in what a join records
  lemma JoinWaits(h: Host, f: Fork, counter: nat, success: bool, os: seq<Outcome>)
    ensures WaitingForks(JoinFork(h, f, counter, success, os).st.log) ==
      WaitingForks(f.st.log) + (if f.kids == [] then 0 else 1) + WaitingForks(KidLogs(os))
  {
    JoinRecords(h, f, counter, success, os);
    WaitingForksAppend(f.st.log + [ForkEvent(f)], KidLogs(os));
    WaitingForksOne(f.st.log, ForkEvent(f));
  }

  /** A plan and everything below it waits in at most as many places as its run has forks with
      children. */
  lemma {:induction false} WaitsBound(w: World, p: Plan)
    requires Good(w, p)
    ensures Sleepers(p.kids) + (if AtWait(p) then 1 else 0) <= WaitingForks(Meaning(w, p.config).st.log)
    decreases p
  {
    hide Eval, Unwind, WaitingForks, JoinFork, Continues, CleanFork;
    if p.config.Waiting? {
      var d, f, k := p.config.d, p.config.fork, p.config.stack;
      var os := KidOutcomes(w, d, f);
      SleepersBound(w, d, f.kids, p.kids, os);
      JoinWaits(w.host, f, (f.st.counter + |f.kids|) % U32, AllOk(os), os);
      UnwindScoped(w, k, SequentialJoin(w.host, f, os));
      WaitingForksPrefix(SequentialJoin(w.host, f, os).st.log, Meaning(w, p.config).st.log);
    }
  }

  /** The forks with children in the whole run of a fork, its own included. */
  ghost function Waits(w: World, d: nat, f: Fork): nat {
    WaitingForks(KidLogs(KidOutcomes(w, d, f))) + if f.kids == [] then 0 else 1
  }

  lemma MoveKeepsRoot(w: World, p: Plan, path: Path)
    requires MoveAt(w, p, path).Some? && path != []
    ensures MoveAt(w, p, path).value.config == p.config && MoveAt(w, p, path).value.begun == p.begun
  {}

  // the root plan waits for its fork until it has ended
  lemma {:induction false} RootWaits(w: World, threads: nat, d: nat, f: Fork, schedule: seq<Choice>)
    ensures var c := Run(w, threads, Start(d, f), schedule).root.config;
      c == Waiting(d, f, Empty) || c.Finished?
    decreases |schedule|
  {
    if schedule != [] {
      var front, c := schedule[..|schedule| - 1], schedule[|schedule| - 1];
      RootWaits(w, threads, d, f, front);
      var s := Run(w, threads, Start(d, f), front);
      hide JoinFork;
      if Next(w, threads, s, c).Some? {
        if c.Move? && c.path != [] { MoveKeepsRoot(w, s.root, c.path); }
        if c.Take? { assert TakeAt(s.root, s.queue[0]).config == s.root.config; }
      }
    }
  }

  // in a stuck state the root plan sleeps above as many sleeping plans as there are threads
  lemma StuckWaits(w: World, threads: nat, d: nat, f: Fork, s: System)
    requires GoodSystem(w, s) && s.root.config == Waiting(d, f, Empty) && Stuck(w, threads, s)
    ensures Waits(w, d, f) > threads
  {
    StuckExactly(w, threads, s);
    assert At(s.root, []) == Some(s.root);
    AsleepAtWait(w, s.root);
    var os := KidOutcomes(w, d, f);
    assert LocalGood(w, s.root);
    SleepersBound(w, d, f.kids, s.root.kids, os);
    hide Meaning, Eval, LocalGood;
    forall i | 0 <= i < |s.root.kids| ensures AllAsleep(s.root.kids[i]) { AsleepBelow(s.root, i); }
    AllHeldSleep(w, s.root.kids);
  }

  /** As long as fewer plans wait on worker threads than the pool has threads, somebody can move. */
  lemma SpareThread(w: World, threads: nat, d: nat, f: Fork, schedule: seq<Choice>)
    requires FreshKids(f) && SequentialJoin(w.host, f, KidOutcomes(w, d, f)).st.clean
    requires Sleepers(Run(w, threads, Start(d, f), schedule).root.kids) < threads
    ensures var s := Run(w, threads, Start(d, f), schedule);
      s.root.config.Finished? || exists c :: IsEnabled(w, threads, s, c)
  {
    RunIsGood(w, threads, d, f, schedule);
    var s := Run(w, threads, Start(d, f), schedule);
    if !s.root.config.Finished? && Stuck(w, threads, s) {
      StuckExactly(w, threads, s);
      hide Meaning, Eval, LocalGood;
      forall i | 0 <= i < |s.root.kids| ensures AllAsleep(s.root.kids[i]) { AsleepBelow(s.root, i); }
      AllHeldSleep(w, s.root.kids);
    }
  }

  /** A run with at most as many forks with children as the pool has threads never gets stuck. */
  lemma NoDeadlock(w: World, threads: nat, d: nat, f: Fork, schedule: seq<Choice>)
    requires FreshKids(f) && SequentialJoin(w.host, f, KidOutcomes(w, d, f)).st.clean
    requires Waits(w, d, f) <= threads
    ensures var s := Run(w, threads, Start(d, f), schedule);
      s.root.config.Finished? || exists c :: IsEnabled(w, threads, s, c)
  {
    RunIsGood(w, threads, d, f, schedule);
    RootWaits(w, threads, d, f, schedule);
    var s := Run(w, threads, Start(d, f), schedule);
    if !s.root.config.Finished? && Stuck(w, threads, s) { StuckWaits(w, threads, d, f, s); }
  }
}
