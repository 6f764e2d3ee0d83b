// What a plan has after a fork: merged maps, folded aggregations, errors of children; and
// that every run of the scheduler gets there.
module Forking {
  import opened Values
  import opened Filling
  import opened Items
  import opened Semantics
  import opened Scoping
  import opened Machine
  import opened Scheduler
  import opened Schedules
  import opened Progress
  import opened Effort

  // ---------------------------------------------------------------- merging

  lemma {:induction false} LastChildWins(items: Env, os: seq<Outcome>)
    requires os != [] && forall i :: 0 <= i < |os| ==> os[i].ok && os[i].st.items.Keys == items.Keys
    ensures MergeItems(items, os) == os[|os| - 1].st.items
    decreases |os|
  {
    var front := os[..|os| - 1];
    MergeKeepsKeys(items, front);
  }

  /** A successful parallel()-part leaves the map of its last branch: children start from
      copies of the parent's map and keep its keys, so each override replaces all values. */
  lemma ParallelMerge(w: World, d: nat, parent: Item, st: PlanState, parts: seq<Item>)
    requires ForkOf(parent, PartsFork(parts, st)) && EvalFork(w, d, parent, PartsFork(parts, st)).ok
    ensures EvalFork(w, d, parent, PartsFork(parts, st)).st.items ==
      if parts == [] then st.items
      else Eval(w, d, parts[|parts| - 1], ChildState(st, st.items)).st.items
  {
    hide Eval;
    var f := PartsFork(parts, st);
    var os := EvalKids(w, d, parent, f);
    ForkScoped(w, d, parent, f);
    if parts != [] { LastChildWins(st.items, os); }
  }

  // ---------------------------------------------------------------- failing children

  // the failed child whose error the plan takes over
  predicate LastFailed(os: seq<Outcome>, i: int) {
    0 <= i < |os| && !os[i].ok && forall j :: i < j < |os| ==> os[j].ok
  }

  predicate TakenFrom(st: PlanState, os: seq<Outcome>, i: int) {
    LastFailed(os, i) && st.error == os[i].st.error && st.status == os[i].st.status
  }

  lemma {:induction false} ErrorOfLastFailed(st: PlanState, os: seq<Outcome>)
    ensures AllOk(os) ==> TakeError(st, os) == st
    ensures !AllOk(os) ==> exists i :: TakenFrom(TakeError(st, os), os, i)
    decreases |os|
  {
    if os != [] {
      var n := |os| - 1;
      ErrorOfLastFailed(st, os[..n]);
      if !os[n].ok {
        assert TakenFrom(TakeError(st, os), os, n);
      } else if !AllOk(os[..n]) {
        var i :| TakenFrom(TakeError(st, os[..n]), os[..n], i);
        assert TakenFrom(TakeError(st, os), os, i);
      }
    }
  }

  predicate Aggregates(h: Host, f: Fork, os: seq<Outcome>) {
    f.join.Aggregate? ==> Aggregated(h, f.join.values, os).Some?
  }

  /** A fork fails exactly when some child's run or its aggregation failed; it then keeps the map.
      It reports error and status of the failed child with the highest index, and an aggregation
      that fails only if there is no such child; a success leaves both as they were. */
  lemma ForkFailure(w: World, d: nat, parent: Item, f: Fork)
    requires ForkOf(parent, f)
    ensures var os, o := EvalKids(w, d, parent, f), EvalFork(w, d, parent, f);
      (o.ok <==> AllOk(os) && Aggregates(w.host, f, os)) && (!o.ok ==> o.st.items == f.st.items) &&
      (!AllOk(os) ==> exists i :: TakenFrom(o.st, os, i)) &&
      (AllOk(os) && !o.ok ==> o.st.error == AggregationValues && o.st.status == f.st.status) &&
      (o.ok ==> o.st.error == f.st.error && o.st.status == f.st.status)
  {
    hide Eval, JoinFork;
    JoinFailure(w.host, f, EvalKids(w, d, parent, f));
  }

  lemma JoinFailure(h: Host, f: Fork, os: seq<Outcome>)
    ensures var o := SequentialJoin(h, f, os);
      (o.ok <==> AllOk(os) && Aggregates(h, f, os)) && (!o.ok ==> o.st.items == f.st.items) &&
      (!AllOk(os) ==> exists i :: TakenFrom(o.st, os, i)) &&
      (AllOk(os) && !o.ok ==> o.st.error == AggregationValues && o.st.status == f.st.status) &&
      (o.ok ==> o.st.error == f.st.error && o.st.status == f.st.status)
  {
    if !AllOk(os) {
      var st := f.st.(
        counter := (f.st.counter + |f.kids|) % U32,
        clean := f.st.clean && CleanFork(f) && AllClean(os),
        log := f.st.log + [ForkEvent(f)] + KidLogs(os));
      ErrorOfLastFailed(st, os);
      TakeErrorKeeps(os, st);
    }
  }

  // ---------------------------------------------------------------- post aggregation

  // what one more child's map makes of the accumulated value: a text is rendered as a
  // jinja2-string, anything else goes through the function calls of the entry
  function Accumulate(h: Host, fs: seq<FunctionItem>, before: Data, env: Env): Option<Data> {
    if before.Str? then
      var rendered := h.jinja(before.s, env);
      if rendered.Some? then Some(Str(rendered.value)) else None
    else Chain(h, env, fs, |fs|, before)
  }

  // the calls applied in the map of child 0, then the value passed on from child to child
  function Fold(h: Host, fs: seq<FunctionItem>, start: Data, os: seq<Outcome>): Option<Data>
    decreases |os|
  {
    if os == [] then Some(start)
    else
      var before := Fold(h, fs, start, os[..|os| - 1]);
      if before.None? then None
      else if |os| == 1 then Chain(h, os[0].st.items, fs, |fs|, before.value)
      else Accumulate(h, fs, before.value, os[|os| - 1].st.items)
  }

  lemma {:induction false} FirstFill(h: Host, values: ValueItemMap, os: seq<Outcome>, k: string)
    requires os != [] && Aggregated(h, values, os).Some? && k in values.values
    requires values.values[k].isIdentifier && !values.values[k].kind.Output?
    ensures h.ToString(values.values[k].item) in os[0].st.items
    decreases |os|
  {
    var n := |os| - 1;
    if n == 0 { assert os[..n] == []; } else { FirstFill(h, values, os[..n], k); }
  }

  /** The first fill resolves the identifier in the map of child 0, every later one applies
      the function list to what was accumulated, unless that is a text. */
  lemma {:induction false} AggregationIsFold(h: Host, values: ValueItemMap, os: seq<Outcome>, k: string)
    requires os != [] && Aggregated(h, values, os).Some? && k in values.values
    requires values.values[k].isIdentifier && !values.values[k].kind.Output?
    ensures var v, total := values.values[k], Aggregated(h, values, os).value;
      k in total.values && h.ToString(v.item) in os[0].st.items &&
      Some(total.values[k].item) == Fold(h, v.functions, os[0].st.items[h.ToString(v.item)], os) &&
      total.values[k] == v.(item := total.values[k].item, isIdentifier := false)
    decreases |os|
  {
    FirstFill(h, values, os, k);
    var v, n := values.values[k], |os| - 1;
    var start := os[0].st.items[h.ToString(v.item)];
    var front := os[..n];
    assert Fold(h, v.functions, start, []) == Some(start);
    if n == 0 {
      assert front == [];
    } else {
      assert front[0] == os[0];
      AggregationIsFold(h, values, front, k);
    }
  }

  // out = out.append(arg)
  predicate IsAppend(v: ValueItem) {
    v.isIdentifier && !v.kind.Output? && |v.functions| == 1 &&
    v.functions[0].name == "append" && |v.functions[0].arguments| == 1
  }

  // the argument as each of the children sees it
  function Appended(h: Host, arg: ValueItem, os: seq<Outcome>): seq<Data> {
    if os == [] then []
    else
      var filled := FillItem(h, os[|os| - 1].st.items, arg);
      Appended(h, arg, os[..|os| - 1]) + if filled.Some? then [filled.value.item] else []
  }

  lemma {:induction false} AppendFold(h: Host, f: FunctionItem, start: Data, os: seq<Outcome>)
    requires f.name == "append" && |f.arguments| == 1
    ensures var r := Fold(h, [f], start, os);
      r.Some? && os != [] ==>
        start.Array? && |Appended(h, f.arguments[0], os)| == |os| &&
        r.value == Array(start.a + Appended(h, f.arguments[0], os))
    decreases |os|
  {
    if os != [] {
      var n := |os| - 1;
      AppendFold(h, f, start, os[..n]);
      var before, env := Fold(h, [f], start, os[..n]), os[n].st.items;
      if before.Some? {
        AppendChain(h, env, f, before.value);
        if n == 0 { assert os[..n] == []; }
      }
    }
  }

  lemma AppendChain(h: Host, env: Env, f: FunctionItem, item: Data)
    requires f.name == "append" && |f.arguments| == 1
    ensures var arg := FillItem(h, env, f.arguments[0]);
      Chain(h, env, [f], 1, item) == if arg.Some? then AppendValue(item, arg.value.item) else None
  {
    assert Chain(h, env, [f], 0, item) == Some(item);
    assert FillArguments(h, env, f, 0) == Some([]);
    assert FillArguments(h, env, f, 1) ==
      var arg := FillItem(h, env, f.arguments[0]); if arg.Some? then Some([] + [arg.value.item]) else None;
  }

  /** A parallel loop with `k = out.append(arg)` whose aggregation succeeds: the parent's k
      becomes the array of child 0 followed by every child's argument in index order, and
      parent variables the aggregation does not name are unchanged. */
  lemma AggregationAppends(w: World, d: nat, parent: Item, f: Fork, k: string)
    requires ForkOf(parent, f) && f.kids != [] && EvalFork(w, d, parent, f).ok
    requires f.join.Aggregate? && k in f.join.values.values && IsAppend(f.join.values.values[k])
    ensures var os, v, after := EvalKids(w, d, parent, f), f.join.values.values[k], EvalFork(w, d, parent, f).st.items;
      var out := w.host.ToString(v.item);
      out in os[0].st.items && os[0].st.items[out].Array? &&
      |Appended(w.host, v.functions[0].arguments[0], os)| == |os| &&
      (k in f.st.items ==>
        after[k] == Array(os[0].st.items[out].a + Appended(w.host, v.functions[0].arguments[0], os))) &&
      after.Keys == f.st.items.Keys &&
      forall other :: other in f.st.items && other !in f.join.values.values ==> after[other] == f.st.items[other]
  {
    hide Eval;
    var h, os, values := w.host, EvalKids(w, d, parent, f), f.join.values;
    var v := values.values[k];
    AggregatedKeys(h, values, os);
    assert v.functions == [v.functions[0]];
    AggregationIsFold(h, values, os, k);
    AppendFold(h, v.functions[0], os[0].st.items[h.ToString(v.item)], os);
  }

  lemma {:induction false} AggregatedKeys(h: Host, values: ValueItemMap, os: seq<Outcome>)
    requires Aggregated(h, values, os).Some?
    ensures Aggregated(h, values, os).value.values.Keys == values.values.Keys
    decreases |os|
  {
    if os != [] { AggregatedKeys(h, values, os[..|os| - 1]); }
  }

  // ---------------------------------------------------------------- runs end with the result

  // from any reachable state some schedule leads to the end
  lemma {:induction false} Continue(w: World, threads: nat, d: nat, f: Fork, begin: seq<Choice>)
    returns (schedule: seq<Choice>)
    requires FreshKids(f) && SequentialJoin(w.host, f, KidOutcomes(w, d, f)).st.clean
    requires Waits(w, d, f) <= threads
    ensures begin <= schedule && Run(w, threads, Start(d, f), schedule).root.config.Finished?
    decreases Effort.Effort(w, Run(w, threads, Start(d, f), begin).root)
  {
    var s := Run(w, threads, Start(d, f), begin);
    schedule := begin;
    if !s.root.config.Finished? {
      RunIsGood(w, threads, d, f, begin);
      NoDeadlock(w, threads, d, f, begin);
      EffortBound(w, s.root);
      var c :| IsEnabled(w, threads, s, c);
      hide Meaning, Eval, Effort.Effort, Next;
      NextCosts(w, threads, s, c);
      assert (begin + [c])[..|begin|] == begin;
      schedule := Continue(w, threads, d, f, begin + [c]);
    }
  }

  /** With enough threads for its forks every run can be continued to its end, no run moves
      for ever, and every run that has come to its end has the result of the sequential
      semantics. */
  lemma EveryRunCompletes(w: World, threads: nat, d: nat, f: Fork, begin: seq<Choice>) returns (schedule: seq<Choice>)
    requires FreshKids(f) && SequentialJoin(w.host, f, KidOutcomes(w, d, f)).st.clean
    requires Waits(w, d, f) <= threads
    ensures begin <= schedule
    ensures Run(w, threads, Start(d, f), schedule).root.config ==
      Finished(SequentialJoin(w.host, f, KidOutcomes(w, d, f)))
    ensures Moves(w, threads, Start(d, f), schedule) <= Effort.Effort(w, Start(d, f).root)
  {
    schedule := Continue(w, threads, d, f, begin);
    InterleavingIndependence(w, threads, d, f, schedule);
    RunsEnd(w, threads, d, f, schedule);
  }
}
