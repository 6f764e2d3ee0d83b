// The counter behind waitUntilFinish. It is never reset: what that means for the second
// and every later fork of a plan, and for loops whose bounds do not fit.
module Counter {
  import opened Values
  import opened Filling
  import opened Items
  import opened Semantics
  import opened Machine
  import opened Scheduler
  import opened Queue
  import opened Schedules
  import opened Steps
  import Effort
  import opened Scoping

  newtype uint32 = x: int | 0 <= x < 0x1_0000_0000

  class ActiveCounter {
    var isCounter: uint32
    var shouldCount: uint32

    constructor ()
      ensures isCounter == 0 && shouldCount == 0
    {
      isCounter, shouldCount := 0, 0;
    }

    method IncreaseCounter()
      modifies this`isCounter
      ensures isCounter as int == (old(isCounter) as int + 1) % U32
    {
      isCounter := if isCounter == 0xFFFF_FFFF then 0 else isCounter + 1;
    }

    method IsEqual() returns (equal: bool)
      ensures equal <==> isCounter == shouldCount
    {
      equal := isCounter == shouldCount;
    }
  }

  // ---------------------------------------------------------------- loop targets

  /** A parallel loop waits for as many children as it spawns exactly when its bounds are in
      order and less than 2^32 apart, or out of order by a multiple of 2^32. */
  lemma TargetExactly(first: int, last: int)
    ensures var a, b := first % U64, last % U64;
      Target(first, last) == |CounterValues(first, last)| <==>
        if a <= b then b - a < U32 else (a - b) % U32 == 0
  {
    var a, b := first % U64, last % U64;
    if a <= b {
      assert (b - a) % U64 == b - a;
    } else {
      assert (b - a) % U64 == b - a + U64;
      WholeTurns(a - b);
    }
  }

  lemma WholeTurns(k: int)
    requires 0 < k < U64
    ensures (U64 - k) % U32 == 0 <==> k % U32 == 0
  {
    assert U64 == U32 * U32;
    var q, r := k / U32, k % U32;
    assert k == q * U32 + r;
    if r == 0 {
      assert U64 - k == (U32 - q) * U32;
    } else {
      assert U64 - k == (U32 - q - 1) * U32 + (U32 - r);
    }
  }

  // ---------------------------------------------------------------- repeated forks

  /** The counter holds what it held when the fork began and the counted children. */
  predicate Tracks(p: Plan) {
    p.config.Waiting? && p.config.fork.st.counter < U32 &&
    p.isCounter == (p.config.fork.st.counter + Number(p.kids, Counted)) % U32
  }

  lemma {:induction false} MoveKeepsPhase(w: World, p: Plan, path: Path)
    requires MoveAt(w, p, path).Some?
    ensures MoveAt(w, p, path).value.phase == p.phase
  {}

  /** Every step while the plan waits keeps this, whatever the counter was before. */
  lemma TracksKept(w: World, p: Plan, path: Path)
    requires Tracks(p) && MoveAt(w, p, path).Some? && MoveAt(w, p, path).value.config == p.config
    requires path == [] ==> !Releasable(p)
    ensures Tracks(MoveAt(w, p, path).value)
  {
    hide StartItem, Resume, JoinFork;
    var p', S := MoveAt(w, p, path).value, p.config.fork.st.counter;
    if path == [] {
      LocalKeepsTracks(w, p);
    } else {
      MoveShape(w, p, path);
      hide MoveAt;
      var i := path[0];
      NumberUpdate(p.kids, i, p'.kids[i], Counted);
      if Ending(p, path) {
        EndOf(w, p, path);
        OneMore(S + Number(p.kids, Counted));
      } else {
        MoveKeepsPhase(w, p.kids[i], path[1..]);
        InnerCounter(w, p, path);
      }
    }
  }

  lemma LocalKeepsTracks(w: World, p: Plan)
    requires Tracks(p) && !Releasable(p) && LocalStep(w, p).Some?
    ensures Tracks(LocalStep(w, p).value)
  {
    hide StartItem, Resume, JoinFork;
    var p' := LocalStep(w, p).value;
    if CanSpawn(p) { assert p'.kids[..|p'.kids| - 1] == p.kids; }
  }

  lemma EndOf(w: World, p: Plan, path: Path)
    requires path != [] && Ending(p, path)
    ensures MoveAt(w, p, path) == Some(
      if p.kids[path[0]].phase.Reported? then Increase(p, path[0]) else Report(p, path[0]))
  {}

  lemma InnerCounter(w: World, p: Plan, path: Path)
    requires path != [] && !Ending(p, path) && MoveAt(w, p, path).Some?
    ensures MoveAt(w, p, path).value.isCounter == p.isCounter
  {}

  lemma OneMore(n: nat)
    ensures (n % U32 + 1) % U32 == (n + 1) % U32
  {}

  /** When the wait of a fork can end, for a counter that starts at S: on a fresh counter
      exactly when all n children are counted, for 0 < S <= n exactly when S of them are
      still missing, for S > n never. So all n counted children satisfy the test iff S is 0. */
  lemma ReleaseExactly(p: Plan)
    requires Tracks(p) && p.begun && |p.kids| == |p.config.fork.kids| < U32
    requires p.shouldCount == |p.kids|
    ensures var n, S, c := |p.kids|, p.config.fork.st.counter, Number(p.kids, Counted);
      (Releasable(p) <==> (S + c - n) % U32 == 0) &&
      (Releasable(p) <==> if S == 0 then c == n else S <= n && c == n - S) &&
      (c == n ==> (Releasable(p) <==> S == 0))
  {
    NumberBound(p.kids, Counted);
    var n, S, c := |p.kids|, p.config.fork.st.counter, Number(p.kids, Counted);
    if S + c < U32 {
      assert p.isCounter == S + c;
      assert (S + c - n) % U32 == 0 <==> S + c == n;
    } else {
      assert p.isCounter == S + c - U32;
      assert p.isCounter < n by { assert c <= n; }
      assert 0 < S + c - n < U32;
    }
  }

  // ---------------------------------------------------------------- in every run

  // children counted by the forks of a plan before its current one
  function CountedBefore(p: Plan): int { p.counted - Number(p.kids, Counted) }

  /** The counter holds all children ever counted, modulo 2^32; at a fork it began with those
      of the forks before. */
  predicate CounterOk(p: Plan) {
    p.isCounter == p.counted % U32 &&
    (p.config.Process? ==> p.isCounter == p.config.st.counter) &&
    (p.config.Waiting? ==>
      Tracks(p) && FreshKids(p.config.fork) && CountedBefore(p) >= 0 &&
      p.config.fork.st.counter == CountedBefore(p) % U32)
  }

  predicate AllCounters(p: Plan) {
    CounterOk(p) && forall i :: 0 <= i < |p.kids| ==> AllCounters(p.kids[i])
  }

  lemma ProcessCounts(w: World, p: Plan)
    requires CounterOk(p) && PhaseOk(p) && p.config.Process?
    ensures CounterOk(LocalStep(w, p).value) && LocalStep(w, p).value.kids == []
  {
    var c, p' := p.config, LocalStep(w, p).value;
    StartItemContinues(w, c.d, c.item, c.st, c.stack);
    RecordPlain(c.st, Entered);
    ResumeContinues(w, c.stack, Outcome(true, c.st));
    hide StartItem, Resume, WaitingForks, JoinFork;
  }

  lemma ReleaseCounts(w: World, p: Plan)
    requires CounterOk(p) && Releasable(p) && !CanSpawn(p)
    ensures CounterOk(LocalStep(w, p).value) && LocalStep(w, p).value.kids == []
  {
    var f, k := p.config.fork, p.config.stack;
    var os := Results(p.kids);
    var o := JoinFork(w.host, f, p.isCounter, p.success, os);
    JoinRecords(w.host, f, p.isCounter, p.success, os);
    ResumeContinues(w, k, o);
    Effort.ResumeEndsFork(w, k, o);
    hide Resume, JoinFork, WaitingForks;
  }

  lemma LocalCounts(w: World, p: Plan)
    requires AllCounters(p) && PhaseOk(p) && LocalStep(w, p).Some?
    ensures AllCounters(LocalStep(w, p).value)
  {
    hide StartItem, Resume, JoinFork;
    if p.config.Process? {
      ProcessCounts(w, p);
    } else if p.begun && !CanSpawn(p) {
      ReleaseCounts(w, p);
    } else if CanSpawn(p) {
      var p' := LocalStep(w, p).value;
      assert p'.kids[..|p'.kids| - 1] == p.kids;
      assert AllCounters(p'.kids[|p.kids|]);
    }
  }

  // another child at one position, and one more counted if it is the step that counts it
  predicate OneKid(p: Plan, p': Plan, i: nat) {
    i < |p.kids| == |p'.kids| &&
    p' == p.(kids := p.kids[i := p'.kids[i]], isCounter := p'.isCounter, counted := p'.counted,
             success := p'.success) &&
    var more := (if p'.kids[i].phase.Counted? then 1 else 0) - (if p.kids[i].phase.Counted? then 1 else 0);
    p'.counted == p.counted + more && p'.isCounter == (p.isCounter + more) % U32
  }

  lemma KidCounter(p: Plan, p': Plan, i: nat)
    requires CounterOk(p) && p.config.Waiting? && OneKid(p, p', i)
    ensures CounterOk(p')
  {
    hide FreshKids, Number, Releasable;
    NumberUpdate(p.kids, i, p'.kids[i], Counted);
    var more := p'.counted - p.counted;
    Shifted(p.counted, more);
    Shifted(p.config.fork.st.counter + Number(p.kids, Counted), more);
  }

  lemma KidCounts(p: Plan, p': Plan, i: nat)
    requires AllCounters(p) && p.config.Waiting? && OneKid(p, p', i) && AllCounters(p'.kids[i])
    ensures AllCounters(p')
  {
    hide CounterOk;
    KidCounter(p, p', i);
    forall j | 0 <= j < |p'.kids| ensures AllCounters(p'.kids[j]) { if j != i { assert p'.kids[j] == p.kids[j]; } }
  }

  lemma Shifted(n: int, m: int)
    ensures (n % U32 + m) % U32 == (n + m) % U32
  {
    var q := n / U32;
    assert n == q * U32 + n % U32;
    Turns(n % U32 + m, q);
  }

  lemma {:induction false} Turns(n: int, q: int)
    ensures (n + q * U32) % U32 == n % U32
    decreases if q < 0 then -q else q
  {
    if q > 0 { Turns(n, q - 1); OneTurn(n + (q - 1) * U32); }
    if q < 0 { Turns(n, q + 1); OneTurn(n + q * U32); }
  }

  lemma OneTurn(n: int)
    ensures (n + U32) % U32 == n % U32
  {}

  lemma ParentWaits(w: World, p: Plan, path: Path)
    requires Orderly(p) && path != [] && MoveAt(w, p, path).Some?
    ensures p.config.Waiting? && path[0] < |p.kids| && Orderly(p.kids[path[0]])
  {}

  lemma InnerMove(w: World, p: Plan, path: Path)
    requires path != [] && !Ending(p, path) && MoveAt(w, p, path).Some?
    ensures var p' := MoveAt(w, p, path).value;
      p' == p.(kids := p.kids[path[0] := p'.kids[path[0]]])
  {}

  /** Every step keeps this for all plans, and that phases, results and children fit. */
  lemma {:induction false} MoveCounts(w: World, p: Plan, path: Path)
    requires AllCounters(p) && Orderly(p) && p.phase.Busy? && MoveAt(w, p, path).Some? && !EarlyAt(p, path)
    ensures var p' := MoveAt(w, p, path).value;
      AllCounters(p') && Orderly(p') && p'.phase == p.phase
    decreases path
  {
    var p' := MoveAt(w, p, path).value;
    if path == [] {
      hide AllCounters, Orderly;
      LocalCounts(w, p);
      LocalOrder(w, p);
    } else {
      hide CounterOk, Tracks, PhaseOk;
      ParentWaits(w, p, path);
      if Ending(p, path) {
        EndOf(w, p, path);
        EndCounts(p, p', path[0]);
      } else {
        MoveShape(w, p, path);
        InnerMove(w, p, path);
        assert At(p, path) == At(p.kids[path[0]], path[1..]);
        MoveCounts(w, p.kids[path[0]], path[1..]);
        hide MoveAt, AllCounters, Orderly;
        InnerCounts(p, p', path[0]);
      }
    }
  }

  lemma EndCounts(p: Plan, p': Plan, i: nat)
    requires AllCounters(p) && Orderly(p) && p.phase.Busy? && p.config.Waiting? && i < |p.kids|
    requires if p.kids[i].phase.Reported? then p' == Increase(p, i)
             else p.kids[i].phase.Busy? && p.kids[i].config.Finished? && p' == Report(p, i)
    ensures AllCounters(p') && Orderly(p') && p'.phase == p.phase
  {
    hide CounterOk, PhaseOk;
    CountersFit(p);
    EndOrder(p.kids[i], p'.kids[i]);
    assert AllCounters(p'.kids[i]) by { SameCounters(p.kids[i], p'.kids[i]); }
    KidCounts(p, p', i);
    KidOrder(p, p', i);
  }

  lemma CountersFit(p: Plan)
    requires AllCounters(p)
    ensures p.isCounter < U32 && (p.isCounter + 0) % U32 == p.isCounter
  {}

  lemma SameCounters(p: Plan, p': Plan)
    requires AllCounters(p) && p' == p.(phase := p'.phase, success := p'.success)
    ensures AllCounters(p')
  {
    hide FreshKids, Number;
    assert p'.kids == p.kids;
  }

  lemma InnerCounts(p: Plan, p': Plan, i: nat)
    requires AllCounters(p) && Orderly(p) && p.phase.Busy? && p.config.Waiting? && i < |p.kids|
    requires |p'.kids| == |p.kids| && p' == p.(kids := p.kids[i := p'.kids[i]])
    requires AllCounters(p'.kids[i]) && Orderly(p'.kids[i]) && p'.kids[i].phase == p.kids[i].phase
    ensures AllCounters(p') && Orderly(p')
  {
    CountersFit(p);
    hide AllCounters, Orderly;
    KidCounts(p, p', i);
    KidOrder(p, p', i);
  }

  lemma {:induction false} TakeCounts(p: Plan, path: Path)
    requires AllCounters(p) && Orderly(p) && QueuedAt(p, path) && (path != [] ==> p.phase.Busy?)
    ensures AllCounters(TakeAt(p, path)) && Orderly(TakeAt(p, path))
    ensures TakeAt(p, path).phase == if path == [] then Busy else p.phase
    ensures TakeAt(p, path).config == p.config
    decreases path
  {
    if path != [] {
      var p', i := TakeAt(p, path), path[0];
      assert QueuedAt(p.kids[i], path[1..]) && Orderly(p.kids[i]);
      if |path| > 1 { assert p.kids[i].kids != []; OpenIsBusy(p.kids[i], path[1..]); }
      TakeCounts(p.kids[i], path[1..]);
      TakeChanges(p, p', i);
    } else {
      assert TakeAt(p, path).kids == p.kids;
    }
  }

  // a queued child is taken, or one below a child
  lemma TakeChanges(p: Plan, p': Plan, i: nat)
    requires AllCounters(p) && Orderly(p) && p.phase.Busy? && i < |p.kids|
    requires |p'.kids| == |p.kids| && p' == p.(kids := p.kids[i := p'.kids[i]])
    requires AllCounters(p'.kids[i]) && Orderly(p'.kids[i])
    requires !p'.kids[i].phase.Counted? && !p.kids[i].phase.Counted?
    ensures AllCounters(p') && Orderly(p')
  {
    CountersFit(p);
    assert p.config.Waiting?;
    hide AllCounters, Orderly;
    KidCounts(p, p', i);
    KidOrder(p, p', i);
  }

  // a plan with a queued plan below is held by a thread
  lemma OpenIsBusy(p: Plan, path: Path)
    requires Orderly(p) && p.kids != []
    ensures p.phase.Busy?
  {}

  ghost predicate Tracked(s: System) {
    AllCounters(s.root) && Orderly(s.root) && s.root.phase.Busy? && GoodQueue(s)
  }

  /** A run in which no wait ends before all its children are counted. Beyond such a step the
      program works on plans that have been freed. */
  ghost predicate NoEarlyJoin(w: World, threads: nat, s: System, schedule: seq<Choice>)
    decreases |schedule|
  {
    schedule == [] ||
    var front, c := schedule[..|schedule| - 1], schedule[|schedule| - 1];
    NoEarlyJoin(w, threads, s, front) && (c.Move? ==> !EarlyAt(Run(w, threads, s, front).root, c.path))
  }

  lemma {:induction false} RunIsTracked(w: World, threads: nat, d: nat, f: Fork, schedule: seq<Choice>)
    requires FreshKids(f) && f.st.counter < U32 && NoEarlyJoin(w, threads, Start(d, f), schedule)
    ensures Tracked(Run(w, threads, Start(d, f), schedule))
    decreases |schedule|
  {
    if schedule != [] {
      var front, c := schedule[..|schedule| - 1], schedule[|schedule| - 1];
      RunIsTracked(w, threads, d, f, front);
      var s := Run(w, threads, Start(d, f), front);
      hide AllCounters, Orderly, EarlyAt, MoveAt, Start;
      if Next(w, threads, s, c).Some? {
        NextKeepsQueue(w, threads, s, c);
        if c.Move? {
          MoveCounts(w, s.root, c.path);
        } else {
          assert s.queue[0] in s.queue;
          TakeCounts(s.root, s.queue[0]);
        }
      }
    }
  }

  lemma {:induction false} CountersAt(p: Plan, path: Path)
    requires AllCounters(p) && At(p, path).Some?
    ensures CounterOk(At(p, path).value)
    decreases path
  {
    if path != [] { CountersAt(p.kids[path[0]], path[1..]); }
  }

  lemma ReleaseByCounted(p: Plan)
    requires CounterOk(p) && p.config.Waiting? && p.begun && |p.kids| == |p.config.fork.kids| < U32
    requires p.shouldCount == |p.kids|
    ensures var n, S, c := |p.kids|, CountedBefore(p), Number(p.kids, Counted);
      S >= 0 && S + c == p.counted &&
      (Releasable(p) <==> (S + c - n) % U32 == 0) &&
      (Releasable(p) <==> if S % U32 == 0 then c == n else S % U32 <= n && c == n - S % U32) &&
      (c == n ==> (Releasable(p) <==> S % U32 == 0))
  {
    hide FreshKids, Number, Releasable;
    ReleaseExactly(p);
    Shifted(CountedBefore(p), Number(p.kids, Counted) - |p.kids|);
  }

  /** In every run without an early join, at every fork whose children are all spawned and whose
      target fits: with n children here, S counted by the earlier forks of the plan and c here,
      the wait can end iff S + c is n modulo 2^32. When all n are counted that is so iff S is a
      multiple of 2^32; otherwise it ends S modulo 2^32 children too early, or never. */
  lemma LaterForksExactly(w: World, threads: nat, d: nat, f: Fork, schedule: seq<Choice>, path: Path)
    requires FreshKids(f) && f.st.counter < U32 && NoEarlyJoin(w, threads, Start(d, f), schedule)
    requires var q := At(Run(w, threads, Start(d, f), schedule).root, path);
      q.Some? && q.value.config.Waiting? && q.value.begun && |q.value.kids| == |q.value.config.fork.kids| < U32 &&
      q.value.shouldCount == |q.value.kids|
    ensures var p := At(Run(w, threads, Start(d, f), schedule).root, path).value;
      var n, S, c := |p.kids|, CountedBefore(p), Number(p.kids, Counted);
      S >= 0 && S + c == p.counted &&
      (Releasable(p) <==> (S + c - n) % U32 == 0) &&
      (Releasable(p) <==> if S % U32 == 0 then c == n else S % U32 <= n && c == n - S % U32) &&
      (c == n ==> (Releasable(p) <==> S % U32 == 0))
  {
    hide FreshKids, NoEarlyJoin, Start, Run, At, AllCounters, Orderly, CounterOk, Number, Releasable;
    RunIsTracked(w, threads, d, f, schedule);
    var s := Run(w, threads, Start(d, f), schedule);
    CountersAt(s.root, path);
    ReleaseByCounted(At(s.root, path).value);
  }

  /** A run of plans with sound counters has no early join. */
  lemma {:induction false} SoundRunsAreNotEarly(w: World, threads: nat, d: nat, f: Fork, schedule: seq<Choice>)
    requires FreshKids(f) && SequentialJoin(w.host, f, KidOutcomes(w, d, f)).st.clean
    ensures NoEarlyJoin(w, threads, Start(d, f), schedule)
    decreases |schedule|
  {
    if schedule != [] {
      var front, c := schedule[..|schedule| - 1], schedule[|schedule| - 1];
      SoundRunsAreNotEarly(w, threads, d, f, front);
      RunIsGood(w, threads, d, f, front);
      hide Meaning, Eval, EarlyAt, Start;
      if c.Move? { GoodIsNotEarly(w, Run(w, threads, Start(d, f), front).root, c.path); }
    }
  }

  // ---------------------------------------------------------------- a second fork, run

  // two parallel()-parts with one branch each, one after the other
  function Twice(): Item { Item(Sequential, [Nested(1), Nested(1)]) }

  function Root(d: nat, st: PlanState, p: Plan): Plan { WaitFor(d, PartsFork([Twice()], st), p) }

  lemma InnerStep(w: World, threads: nat, d: nat, st: PlanState, s: System, schedule: seq<Choice>,
                  p: Plan, path: Path)
    returns (next: seq<Choice>)
    requires Run(w, threads, s, schedule).root == Root(d, st, p)
    requires p.phase.Busy? && !p.config.Finished? && MoveAt(w, p, path).Some?
    ensures Run(w, threads, s, next).root == Root(d, st, MoveAt(w, p, path).value)
    ensures Run(w, threads, s, next).queue == Run(w, threads, s, schedule).queue +
      if Pushed(p, path) == [] then [] else [[0] + Pushed(p, path)[0]]
  {
    var z := [0] + path;
    Below(w, Root(d, st, p), p, path, z);
    Extend(w, threads, s, schedule, Move(z));
    next := schedule + [Move(z)];
  }

  lemma TakeStep(w: World, threads: nat, d: nat, st: PlanState, s: System, schedule: seq<Choice>,
                 p: Plan, path: Path)
    returns (next: seq<Choice>)
    requires Run(w, threads, s, schedule) == System(Root(d, st, p), [[0] + path])
    requires Workers([p]) < threads && !p.config.Finished? && !p.phase.Reported?
    ensures Run(w, threads, s, next) == System(Root(d, st, TakeAt(p, path)), [])
  {
    Below(w, Root(d, st, p), p, path, [0] + path);
    Extend(w, threads, s, schedule, Take);
    next := schedule + [Take];
  }

  // a plan in front of a parallel()-part with one empty branch
  predicate BeforeFork(d: nat, p: Plan, st: PlanState, k: Stack) {
    p.config == Process(d, Nested(1), st, k) && p.phase.Busy? && p.success && !p.begun && p.kids == [] &&
    p.isCounter == st.counter
  }

  function EmptyChild(d: nat, st: PlanState): Plan { NewPlan(Kid(Nested(0), ChildOf(Inside(st))), d) }

  // the same plan when it waits for its child
  function InFork(d: nat, p: Plan, st: PlanState, k: Stack, kid: Plan): Plan {
    p.(config := Waiting(d, ForkIn(0, Inside(st)), k), begun := true, shouldCount := 1, kids := [kid])
  }

  // up to the wait for the child of the fork
  lemma ForkRound(w: World, threads: nat, d: nat, st: PlanState, s: System, schedule: seq<Choice>,
                  p: Plan, at: PlanState, k: Stack)
    returns (next: seq<Choice>)
    requires Run(w, threads, s, schedule) == System(Root(d, st, p), []) && BeforeFork(d, p, at, k)
    ensures Run(w, threads, s, next) == System(Root(d, st, InFork(d, p, at, k, EmptyChild(d, at))), [[0, 0]])
  {
    var f := ForkIn(0, Inside(at));
    var p1 := p.(config := Waiting(d, f, k));
    var p2 := p1.(begun := true, shouldCount := 1);
    assert MoveAt(w, p, []) == Some(p1) && Pushed(p, []) == [];
    next := InnerStep(w, threads, d, st, s, schedule, p, []);
    assert MoveAt(w, p1, []) == Some(p2) && Pushed(p1, []) == [];
    next := InnerStep(w, threads, d, st, s, next, p1, []);
    assert CanSpawn(p2) && [] + [EmptyChild(d, at)] == [EmptyChild(d, at)];
    assert MoveAt(w, p2, []) == Some(InFork(d, p, at, k, EmptyChild(d, at)));
    assert Pushed(p2, []) == [[0]] by { assert [] + [0] == [0]; }
    next := InnerStep(w, threads, d, st, s, next, p2, []);
    assert [0] + [0] == [0, 0];
  }

  // the child at each of its stages: queued, taken, finished, reported, counted
  function ChildAt(d: nat, st: PlanState, stage: nat): Plan {
    var kid := EmptyChild(d, st);
    var end := Finished(Outcome(true, Record(kid.config.st, Entered)));
    if stage == 0 then kid
    else if stage == 1 then TakeAt(kid, [])
    else TakeAt(kid, []).(config := end, phase := if stage == 2 then Busy else if stage == 3 then Reported else Counted)
  }

  function ForkAt(d: nat, p: Plan, st: PlanState, k: Stack, stage: nat): Plan {
    InFork(d, p, st, k, ChildAt(d, st, stage)).(
      isCounter := if stage == 4 then 1 else p.isCounter, counted := p.counted + if stage == 4 then 1 else 0)
  }

  lemma ChildStages(w: World, d: nat, p: Plan, at: PlanState, k: Stack, stage: nat)
    requires BeforeFork(d, p, at, k) && at.counter == 0 && stage < 4
    ensures stage == 0 ==> TakeAt(ForkAt(d, p, at, k, 0), [0]) == ForkAt(d, p, at, k, 1)
    ensures stage > 0 ==> MoveAt(w, ForkAt(d, p, at, k, stage), [0]) == Some(ForkAt(d, p, at, k, stage + 1))
    ensures Pushed(ForkAt(d, p, at, k, stage), [0]) == []
  {
    var q := ForkAt(d, p, at, k, stage);
    assert [0][1..] == [];
    assert forall x: Plan :: q.kids[0 := x] == [x];
    if stage == 1 {
      var kid := q.kids[0];
      var end := Outcome(true, Record(kid.config.st, Entered));
      assert StartItem(w, d, kid.config.item, kid.config.st, Empty) == Resume(w, Push(PartsFrame(d, []), Empty), end);
      assert Resume(w, Push(PartsFrame(d, []), Empty), end) == Resume(w, Empty, end) == Finished(end);
      assert LocalStep(w, kid).value == ChildAt(d, at, 2);
    }
  }

  // the child is taken, runs, reports and is counted
  lemma ChildRound(w: World, threads: nat, d: nat, st: PlanState, s: System, schedule: seq<Choice>,
                   p: Plan, at: PlanState, k: Stack)
    returns (next: seq<Choice>)
    requires threads >= 2 && BeforeFork(d, p, at, k) && at.counter == 0
    requires Run(w, threads, s, schedule) == System(Root(d, st, ForkAt(d, p, at, k, 0)), [[0, 0]])
    ensures Run(w, threads, s, next) == System(Root(d, st, ForkAt(d, p, at, k, 4)), [])
  {
    var q, kid := ForkAt(d, p, at, k, 0), ChildAt(d, at, 0);
    assert Workers([q]) == 1 by { assert [q][..0] == [] && [kid][..0] == [] && kid.kids == []; }
    assert [0] + [0] == [0, 0];
    ChildStages(w, d, p, at, k, 0);
    next := TakeStep(w, threads, d, st, s, schedule, q, [0]);
    hide Run, MoveAt, Root, Pushed, ChildAt;
    for stage := 1 to 4
      invariant Run(w, threads, s, next) == System(Root(d, st, ForkAt(d, p, at, k, stage)), [])
    {
      ChildStages(w, d, p, at, k, stage);
      next := InnerStep(w, threads, d, st, s, next, ForkAt(d, p, at, k, stage), [0]);
    }
  }

  // the join of the first fork leads to the second one, the counter stays at 1
  lemma JoinRound(w: World, d: nat, p: Plan, at: PlanState) returns (at': PlanState, p': Plan)
    requires BeforeFork(d, p, at, Push(PartsFrame(d, [Nested(1)]), Empty)) && at.counter == 0
    ensures var q := ForkAt(d, p, at, Push(PartsFrame(d, [Nested(1)]), Empty), 4);
      LocalStep(w, q) == Some(p') && at'.counter == 1 && Pushed(q, []) == []
    ensures BeforeFork(d, p', at', Push(PartsFrame(d, []), Empty))
  {
    var q := ForkAt(d, p, at, Push(PartsFrame(d, [Nested(1)]), Empty), 4);
    var o := JoinFork(w.host, q.config.fork, 1, true, Results(q.kids));
    at' := o.st;
    p' := LocalStep(w, q).value;
    assert o.ok && o.st.counter == 1;
    assert [Nested(1)][1..] == [];
  }

  lemma TwiceBegins(w: World, d: nat, st: PlanState)
    ensures var p := TakeAt(NewPlan(Kid(Twice(), ChildOf(st)), d), []);
      MoveAt(w, p, []) == Some(p.(config :=
        Process(d, Nested(1), Inside(ChildOf(st)), Push(PartsFrame(d, [Nested(1)]), Empty)))) &&
      Pushed(p, []) == []
  {
    assert Twice().childs[1..] == [Nested(1)];
  }

  /** A pool of two threads, a plan with two forks of one child each: in some run the wait of
      the second fork can end while its child is still in the queue. One step later the plan
      is done and the queue holds a plan that has been freed. */
  lemma SecondForkReleasedEarly(w: World, threads: nat, d: nat, st: PlanState) returns (schedule: seq<Choice>)
    requires threads >= 2 && st.counter == 0
    ensures var s := Run(w, threads, Start(d, PartsFork([Twice()], st)), schedule);
      var p := At(s.root, [0]);
      p.Some? && Releasable(p.value) && |p.value.kids| == 1 && p.value.kids[0].phase.Queued? &&
      var s' := Run(w, threads, Start(d, PartsFork([Twice()], st)), schedule + [Move([0])]);
      s'.queue == [[0, 0]] && At(s'.root, [0, 0]).None?
  {
    var s := Start(d, PartsFork([Twice()], st));
    var p0 := NewPlan(Kid(Twice(), ChildOf(st)), d);
    RootForks(w, threads, d, Twice(), st);
    assert Workers([p0]) == 0 by { assert [p0][..0] == [] && p0.kids == []; }
    assert [0] + [] == [0];
    schedule := TakeStep(w, threads, d, st, s, [Move([]), Move([])], p0, []);
    var p1 := TakeAt(p0, []);
    var at := Inside(ChildOf(st));
    var k := Push(PartsFrame(d, [Nested(1)]), Empty);
    var p2 := p1.(config := Process(d, Nested(1), at, k));
    TwiceBegins(w, d, st);
    hide MoveAt, Run, Pushed, Root, InFork, ForkAt, JoinFork, StartItem, Workers;
    schedule := InnerStep(w, threads, d, st, s, schedule, p1, []);
    schedule := ForkRound(w, threads, d, st, s, schedule, p2, at, k);
    schedule := ChildRound(w, threads, d, st, s, schedule, p2, at, k);
    var at2, p4 := JoinRound(w, d, p2, at);
    schedule := InnerStep(w, threads, d, st, s, schedule, ForkAt(d, p2, at, k, 4), []);
    var k2 := Push(PartsFrame(d, []), Empty);
    schedule := ForkRound(w, threads, d, st, s, schedule, p4, at2, k2);
    SecondRelease(w, threads, d, st, s, schedule, p4, at2, k2);
  }

  lemma SecondRelease(w: World, threads: nat, d: nat, st: PlanState, s: System, schedule: seq<Choice>,
                      p: Plan, at: PlanState, k: Stack)
    requires BeforeFork(d, p, at, k) && at.counter == 1
    requires Run(w, threads, s, schedule) == System(Root(d, st, InFork(d, p, at, k, EmptyChild(d, at))), [[0, 0]])
    ensures Releasable(InFork(d, p, at, k, EmptyChild(d, at)))
    ensures var s' := Run(w, threads, s, schedule + [Move([0])]);
      s'.queue == [[0, 0]] && At(s'.root, [0, 0]).None?
  {
    hide Resume, JoinFork;
    var q := InFork(d, p, at, k, EmptyChild(d, at));
    var q' := LocalStep(w, q).value;
    assert [0] + [] == [0];
    Below(w, Root(d, st, q), q, [], [0]);
    Extend(w, threads, s, schedule, Move([0]));
    assert Run(w, threads, s, schedule + [Move([0])]) == System(Root(d, st, q'), [[0, 0]] + []);
    assert q'.kids == [];
    assert At(Root(d, st, q'), [0, 0]) == At(q', [0, 0][1..]);
  }
}
