// The queue of the scheduler: it holds exactly the plans that were pushed and not taken, as long as
// no wait ends early.
module Queue {
  import opened Values
  import opened Items
  import opened Semantics
  import opened Machine
  import opened Scheduler

  predicate QueuedAt(p: Plan, path: Path) { At(p, path).Some? && At(p, path).value.phase.Queued? }

  /** The queue holds exactly the paths of the queued plans, each of them once. */
  ghost predicate GoodQueue(s: System) {
    (forall path :: path in s.queue <==> QueuedAt(s.root, path)) &&
    forall i, j :: 0 <= i < j < |s.queue| ==> s.queue[i] != s.queue[j]
  }

  lemma MoveShape(w: World, p: Plan, path: Path)
    requires path != [] && MoveAt(w, p, path).Some?
    ensures var p', i := MoveAt(w, p, path).value, path[0];
      i < |p.kids| == |p'.kids| && p'.kids == p.kids[i := p'.kids[i]] && p'.phase == p.phase &&
      if Ending(p, path)
      then p'.kids[i] == p.kids[i].(phase := p'.kids[i].phase, success := p'.kids[i].success) && HasReported(p'.kids[i])
      else p.kids[i].phase.Busy? && MoveAt(w, p.kids[i], path[1..]) == Some(p'.kids[i])
  {}

  // phases, results and children of all plans fit together
  predicate Orderly(p: Plan) {
    PhaseOk(p) && forall i :: 0 <= i < |p.kids| ==> Orderly(p.kids[i])
  }

  /** A wait that can end although not all children are counted. */
  predicate Early(p: Plan) {
    Releasable(p) && exists i :: 0 <= i < |p.kids| && !p.kids[i].phase.Counted?
  }

  predicate EarlyAt(p: Plan, path: Path) { At(p, path).Some? && Early(At(p, path).value) }

  lemma LocalOrder(w: World, p: Plan)
    requires Orderly(p) && p.phase.Busy? && LocalStep(w, p).Some?
    ensures Orderly(LocalStep(w, p).value) && LocalStep(w, p).value.phase == p.phase
  {
    hide StartItem, Resume, JoinFork;
    if CanSpawn(p) { assert Orderly(LocalStep(w, p).value.kids[|p.kids|]); }
  }

  // the last steps of a worker on a plan
  lemma EndOrder(p: Plan, p': Plan)
    requires Orderly(p)
    requires if p.phase.Reported? then p' == p.(phase := Counted)
             else p.phase.Busy? && p.config.Finished? && p' == p.(phase := Reported, success := p.config.o.ok)
    ensures Orderly(p')
  {}

  lemma KidOrder(p: Plan, p': Plan, i: nat)
    requires Orderly(p) && p.phase.Busy? && p.config.Waiting? && i < |p.kids| == |p'.kids| && Orderly(p'.kids[i])
    requires p' == p.(kids := p.kids[i := p'.kids[i]], isCounter := p'.isCounter, counted := p'.counted,
                      success := p'.success)
    ensures Orderly(p')
  {
    forall j | 0 <= j < |p'.kids| ensures Orderly(p'.kids[j]) { if j != i { assert p'.kids[j] == p.kids[j]; } }
  }

  lemma {:induction false} GoodIsOrderly(w: World, p: Plan)
    requires Good(w, p)
    ensures Orderly(p)
    decreases p
  {
    hide Meaning, Eval;
    forall i | 0 <= i < |p.kids| ensures Orderly(p.kids[i]) { GoodIsOrderly(w, p.kids[i]); }
  }

  // with sound counters no wait ends early
  lemma GoodIsNotEarly(w: World, p: Plan, path: Path)
    requires Good(w, p)
    ensures !EarlyAt(p, path)
  {
    hide Meaning, Eval;
    if At(p, path).Some? {
      PlanIsGood(w, p, path);
      var q := At(p, path).value;
      if Releasable(q) { JoinMeaning(w, q); }
    }
  }

  lemma {:induction false} MoveQueues(w: World, p: Plan, path: Path, q: Path)
    requires Orderly(p) && p.phase.Busy? && MoveAt(w, p, path).Some? && !EarlyAt(p, path)
    ensures QueuedAt(MoveAt(w, p, path).value, q) <==> QueuedAt(p, q) || q in Pushed(p, path)
    ensures QueuedAt(p, q) ==> q !in Pushed(p, path)
    decreases path
  {
    if path == [] {
      LocalQueues(w, p, q);
    } else {
      MoveShape(w, p, path);
      var p', i := MoveAt(w, p, path).value, path[0];
      PushedBelow(p, path, q);
      hide MoveAt, Meaning, Eval, Pushed;
      if q != [] && q[0] == i {
        assert At(p, q) == At(p.kids[i], q[1..]) && At(p', q) == At(p'.kids[i], q[1..]);
        if Ending(p, path) {
          EndQueues(p.kids[i], p'.kids[i], q[1..]);
        } else {
          assert At(p, path) == At(p.kids[i], path[1..]);
          MoveQueues(w, p.kids[i], path[1..], q[1..]);
        }
      } else if q != [] && q[0] < |p.kids| {
        assert p'.kids[q[0]] == p.kids[q[0]];
      }
    }
  }

  lemma PushedBelow(p: Plan, path: Path, q: Path)
    requires path != [] && path[0] < |p.kids|
    ensures q in Pushed(p, path) <==> q != [] && q[0] == path[0] && q[1..] in Pushed(p.kids[path[0]], path[1..])
  {
    var r := At(p.kids[path[0]], path[1..]);
    if r.Some? && CanSpawn(r.value) {
      var tail := path[1..] + [|r.value.kids|];
      assert path + [|r.value.kids|] == [path[0]] + tail;
      if q != [] && q[0] == path[0] && q[1..] == tail { assert q == [path[0]] + tail; }
    }
  }

  lemma EndQueues(kid: Plan, kid': Plan, q: Path)
    requires PhaseOk(kid) && kid.config.Finished? && !kid.phase.Queued?
    requires kid' == kid.(phase := kid'.phase, success := kid'.success) && !kid'.phase.Queued?
    ensures !QueuedAt(kid, q) && !QueuedAt(kid', q) && Pushed(kid, []) == []
  {
    assert At(kid, []) == Some(kid);
  }

  lemma LocalQueues(w: World, p: Plan, q: Path)
    requires Orderly(p) && p.phase.Busy? && LocalStep(w, p).Some? && !Early(p)
    ensures QueuedAt(LocalStep(w, p).value, q) <==> QueuedAt(p, q) || q in Pushed(p, [])
    ensures QueuedAt(p, q) ==> q !in Pushed(p, [])
  {
    hide StartItem, Resume, JoinFork;
    var p', n := LocalStep(w, p).value, |p.kids|;
    assert Pushed(p, []) == if CanSpawn(p) then [[n]] else [] by { assert [] + [n] == [n]; }
    if CanSpawn(p) {
      if q != [] && q[0] < n { assert p'.kids[q[0]] == p.kids[q[0]]; }
      if q != [] && q[0] == n { assert At(p', q) == At(p'.kids[n], q[1..]) && p'.kids[n].kids == []; }
      assert q == [n] <==> q != [] && q[0] == n && q[1..] == [] by { if q != [] { assert q == [q[0]] + q[1..]; } }
    } else if Releasable(p) {
      ReleaseQueues(p, q);
    }
  }

  lemma ReleaseQueues(p: Plan, q: Path)
    requires Orderly(p) && Releasable(p) && !Early(p) && p.phase.Busy?
    ensures !QueuedAt(p, q)
  {
    if q != [] && q[0] < |p.kids| {
      var kid := p.kids[q[0]];
      assert kid.phase.Counted? && PhaseOk(kid);
      assert At(p, q) == At(kid, q[1..]) == if q[1..] == [] then Some(kid) else None;
    }
  }

  lemma {:induction false} TakeQueues(p: Plan, path: Path, q: Path)
    requires QueuedAt(p, path)
    ensures QueuedAt(TakeAt(p, path), q) <==> QueuedAt(p, q) && q != path
    decreases path
  {
    if path != [] && q != [] {
      if q[0] == path[0] {
        TakeQueues(p.kids[path[0]], path[1..], q[1..]);
        assert q == path <==> q[1..] == path[1..] by {
          assert q == [q[0]] + q[1..] && path == [path[0]] + path[1..];
        }
      } else if q[0] < |p.kids| {
        assert TakeAt(p, path).kids[q[0]] == p.kids[q[0]];
      }
    } else if path == [] && q != [] {
      assert TakeAt(p, path).kids == p.kids;
    }
  }

  lemma NextKeepsQueue(w: World, threads: nat, s: System, c: Choice)
    requires Orderly(s.root) && s.root.phase.Busy? && GoodQueue(s) && Next(w, threads, s, c).Some?
    requires c.Move? ==> !EarlyAt(s.root, c.path)
    ensures GoodQueue(Next(w, threads, s, c).value)
  {
    hide Orderly, EarlyAt;
    var s' := Next(w, threads, s, c).value;
    match c
    case Move(path) =>
      forall q ensures q in s'.queue <==> QueuedAt(s'.root, q) { MoveQueues(w, s.root, path, q); }
      forall i, j | 0 <= i < j < |s'.queue| ensures s'.queue[i] != s'.queue[j] {
        MoveQueues(w, s.root, path, s'.queue[i]);
        if j < |s.queue| {} else { assert s'.queue[j] in Pushed(s.root, path); assert s'.queue[i] == s.queue[i]; }
      }
    case Take =>
      var head := s.queue[0];
      assert head in s.queue;
      forall q ensures q in s'.queue <==> QueuedAt(s'.root, q) {
        TakeQueues(s.root, head, q);
        assert q in s.queue <==> q == head || q in s'.queue;
      }
  }
}
