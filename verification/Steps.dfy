// Single steps of concrete runs.
module Steps {
  import opened Values
  import opened Items
  import opened Semantics
  import opened Machine
  import opened Scheduler

  // n nested parallel()-parts around nothing
  function Nested(n: nat): Item {
    if n == 0 then Item(Sequential, []) else Item(Parallel, [Item(Sequential, [Nested(n - 1)])])
  }

  function ForkIn(n: nat, st: PlanState): Fork { PartsFork([Nested(n)], st) }

  function ChildOf(st: PlanState): PlanState { ChildState(st, st.items) }

  function Inside(st: PlanState): PlanState { Record(st, Entered) }

  // a plan that has pushed its only child and waits for it
  function WaitFor(d: nat, f: Fork, kid: Plan): Plan {
    Plan(Waiting(d, f, Empty), Busy, true, true, 0, 1, 1, 0, [kid])
  }

  // steps of a plan that waits for one child are steps of the child
  lemma Below(w: World, p: Plan, kid: Plan, path: Path, z: Path)
    requires p.kids == [kid] && z == [0] + path && !kid.config.Finished? && !kid.phase.Reported?
    ensures TakeAt(p, z) == p.(kids := [TakeAt(kid, path)])
    ensures kid.phase.Busy? ==>
      MoveAt(w, p, z) ==
        (if MoveAt(w, kid, path).Some? then Some(p.(kids := [MoveAt(w, kid, path).value])) else None)
    ensures Pushed(p, z) == if Pushed(kid, path) == [] then [] else [[0] + Pushed(kid, path)[0]]
  {
    assert z[1..] == path && z[0] == 0;
    assert forall x: Plan :: p.kids[0 := x] == [x];
    var q := At(kid, path);
    if q.Some? { assert [0] + (path + [|q.value.kids|]) == z + [|q.value.kids|]; }
  }

  lemma Extend(w: World, threads: nat, s: System, schedule: seq<Choice>, c: Choice)
    requires Next(w, threads, Run(w, threads, s, schedule), c).Some?
    ensures Run(w, threads, s, schedule + [c]) == Next(w, threads, Run(w, threads, s, schedule), c).value
  {
    assert (schedule + [c])[..|schedule|] == schedule;
  }

  // the root plan sets its target and pushes its only child
  lemma RootForks(w: World, threads: nat, d: nat, item: Item, st: PlanState)
    requires st.counter == 0
    ensures var f := PartsFork([item], st);
      Run(w, threads, Start(d, f), [Move([]), Move([])]) ==
        System(WaitFor(d, f, NewPlan(Kid(item, ChildOf(st)), d)), [[0]])
  {
    var start := Start(d, PartsFork([item], st));
    var begun := System(start.root.(begun := true, shouldCount := 1), []);
    var spawned := System(WaitFor(d, PartsFork([item], st), NewPlan(Kid(item, ChildOf(st)), d)), [[0]]);
    assert [Move([]), Move([])] == ([] + [Move([])]) + [Move([])];
    assert Next(w, threads, start, Move([])).value == begun by { assert start.queue + [] == []; }
    Extend(w, threads, start, [], Move([]));
    assert Next(w, threads, begun, Move([])).value == spawned by {
      assert [] + [0] == [0];
      assert CanSpawn(begun.root) && begun.queue + [[0]] == [[0]];
    }
    Extend(w, threads, start, [] + [Move([])], Move([]));
  }
}
