// Whole runs of the scheduler: what holds in every reachable state, for all schedules and pool sizes.
module Schedules {
  import opened Items
  import opened Semantics
  import opened Machine
  import opened Scheduler
  import opened Queue

  ghost predicate GoodSystem(w: World, s: System) {
    Good(w, s.root) && s.root.phase.Busy? && GoodQueue(s)
  }

  lemma NextKeepsGood(w: World, threads: nat, s: System, c: Choice)
    requires GoodSystem(w, s) && Next(w, threads, s, c).Some?
    ensures var s' := Next(w, threads, s, c).value;
      GoodSystem(w, s') && Meaning(w, s'.root.config) == Meaning(w, s.root.config)
  {
    hide Meaning, Eval;
    GoodIsOrderly(w, s.root);
    match c
    case Move(path) =>
      GoodIsNotEarly(w, s.root, path);
      MoveKeepsGood(w, s.root, path);
      NextKeepsQueue(w, threads, s, c);
    case Take =>
      assert s.queue[0] in s.queue && s.queue[0] != [];
      TakeKeepsGood(w, s.root, s.queue[0]);
      NextKeepsQueue(w, threads, s, c);
  }

  lemma StartIsGood(w: World, d: nat, f: Fork)
    requires FreshKids(f) && Meaning(w, Waiting(d, f, Empty)).st.clean
    ensures GoodSystem(w, Start(d, f))
  {
    CleanWaiting(w, d, f, Empty);
  }

  /** The invariant in every reachable state, and with it an unchanged meaning of the root. */
  lemma {:induction false} RunIsGood(w: World, threads: nat, d: nat, f: Fork, schedule: seq<Choice>)
    requires FreshKids(f) && Meaning(w, Waiting(d, f, Empty)).st.clean
    ensures var s := Run(w, threads, Start(d, f), schedule);
      GoodSystem(w, s) && Meaning(w, s.root.config) == Meaning(w, Waiting(d, f, Empty))
    decreases |schedule|
  {
    StartIsGood(w, d, f);
    if schedule != [] {
      var front := schedule[..|schedule| - 1];
      RunIsGood(w, threads, d, f, front);
      var before := Run(w, threads, Start(d, f), front);
      var next := Next(w, threads, before, schedule[|schedule| - 1]);
      if next.Some? { NextKeepsGood(w, threads, before, schedule[|schedule| - 1]); }
    }
  }

  // ---------------------------------------------------------------- theorems

  /** Whatever the schedule and the number of threads: when the root plan has ended, its
      result is the one of the sequential big-step semantics. */
  lemma InterleavingIndependence(w: World, threads: nat, d: nat, f: Fork, schedule: seq<Choice>)
    requires FreshKids(f) && SequentialJoin(w.host, f, KidOutcomes(w, d, f)).st.clean
    ensures var s := Run(w, threads, Start(d, f), schedule);
      s.root.config.Finished? ==> s.root.config.o == SequentialJoin(w.host, f, KidOutcomes(w, d, f))
  {
    RunIsGood(w, threads, d, f, schedule);
  }

  /** At a fork of n children none is lost and the counter holds the counted ones; the wait
      ends exactly when it is n, and then each child was taken once, has finished and is
      counted, so none is freed while queued or running. */
  predicate Conserved(p: Plan)
    requires p.config.Waiting?
  {
    var n := |p.config.fork.kids|;
    (n - |p.kids|) + Number(p.kids, Queued) + Number(p.kids, Busy) + Number(p.kids, Reported) + p.isCounter == n &&
    p.isCounter == Number(p.kids, Counted) &&
    (Releasable(p) <==> |p.kids| == n && p.begun && p.isCounter == n) &&
    (Releasable(p) ==> forall i :: 0 <= i < n ==>
      p.kids[i].phase.Counted? && p.kids[i].config.Finished? && p.kids[i].taken == 1 && p.kids[i].kids == [])
  }

  /** Conservation and join safety at every fork of every reachable state. */
  lemma JoinSafety(w: World, threads: nat, d: nat, f: Fork, schedule: seq<Choice>, path: Path)
    requires FreshKids(f) && SequentialJoin(w.host, f, KidOutcomes(w, d, f)).st.clean
    ensures var q := At(Run(w, threads, Start(d, f), schedule).root, path);
      q.Some? && q.value.config.Waiting? ==> Conserved(q.value)
  {
    RunIsGood(w, threads, d, f, schedule);
    hide Meaning, Eval;
    var s := Run(w, threads, Start(d, f), schedule);
    if At(s.root, path).Some? {
      PlanIsGood(w, s.root, path);
      if At(s.root, path).value.config.Waiting? { GoodForkConserves(w, At(s.root, path).value); }
    }
  }

  lemma GoodForkConserves(w: World, p: Plan)
    requires LocalGood(w, p) && p.config.Waiting?
    ensures Conserved(p)
  {
    hide Meaning, Eval;
    PhasesAddUp(p.kids);
    if Releasable(p) {
      JoinMeaning(w, p);
      assert forall i :: 0 <= i < |p.kids| ==> PhaseOk(p.kids[i]);
    }
  }

  /** The check at the start of processSakuraItem never skips an item. */
  lemma GuardNeverFires(w: World, threads: nat, d: nat, f: Fork, schedule: seq<Choice>, path: Path)
    requires FreshKids(f) && SequentialJoin(w.host, f, KidOutcomes(w, d, f)).st.clean
    ensures var q := At(Run(w, threads, Start(d, f), schedule).root, path);
      q.Some? && q.value.config.Process? ==> q.value.success
  {
    RunIsGood(w, threads, d, f, schedule);
    var s := Run(w, threads, Start(d, f), schedule);
    if At(s.root, path).Some? { PlanIsGood(w, s.root, path); }
  }
}
