// The control flow of a tree in terms of its parts: which branch runs, what a loop counts and
// writes, in which order parts run and where a call leads.
module Flow {
  import opened Values
  import opened Filling
  import opened Items
  import opened Semantics
  import opened Scoping

  function Enter(before: PlanState): PlanState { before.(log := before.log + [Entered]) }

  // ---------------------------------------------------------------- branches

  /** An if compares the texts of its two filled sides: the first branch runs if they agree, the
      second one if not, in the same state. */
  lemma EqualRuns(w: World, d: nat, left: ValueItem, right: ValueItem, a: Item, b: Item, before: PlanState)
    ensures var l, r := FillItem(w.host, before.items, left), FillItem(w.host, before.items, right);
      Eval(w, d, Item(If(left, Equal, right), [a, b]), before) ==
        if l.None? || r.None? then Outcome(false, Enter(before).(error := IfValues))
        else if w.host.ToString(l.value.item) == w.host.ToString(r.value.item) then Eval(w, d, a, Enter(before))
        else Eval(w, d, b, Enter(before))
  {
    EvalOf(w, d, Item(If(left, Equal, right), [a, b]), before);
    hide Eval, FillItem;
  }

  /** Its negation is the same if with exchanged branches; the other comparisons only reach an
      assertion. */
  lemma UnequalExchanges(w: World, d: nat, left: ValueItem, op: Compare, right: ValueItem, a: Item, b: Item,
                         before: PlanState)
    ensures Eval(w, d, Item(If(left, Unequal, right), [a, b]), before) ==
            Eval(w, d, Item(If(left, Equal, right), [b, a]), before)
    ensures !op.Equal? && !op.Unequal? ==>
      var o := Eval(w, d, Item(If(left, op, right), [a, b]), before);
      !o.ok && o.st.error in {IfValues, NullAccess}
  {
    EvalOf(w, d, Item(If(left, Unequal, right), [a, b]), before);
    EvalOf(w, d, Item(If(left, Equal, right), [b, a]), before);
    EvalOf(w, d, Item(If(left, op, right), [a, b]), before);
    hide Eval, FillItem;
  }

  // ---------------------------------------------------------------- parts

  /** Parts run one after another, the next one in the state the last one left; the first failure
      ends them. */
  lemma {:induction false} PartsSplit(w: World, d: nat, first: seq<Item>, rest: seq<Item>, st: PlanState)
    ensures var o := EvalParts(w, d, first, st);
      EvalParts(w, d, first + rest, st) == if o.ok then EvalParts(w, d, rest, o.st) else o
    decreases |first|
  {
    hide Eval;
    if first == [] {
      assert first + rest == rest;
    } else {
      assert (first + rest)[0] == first[0] && (first + rest)[1..] == first[1..] + rest;
      var o := Eval(w, d, first[0], st);
      if o.ok { PartsSplit(w, d, first[1..], rest, o.st); }
    }
  }

  lemma OnePart(w: World, d: nat, part: Item, before: PlanState)
    ensures EvalParts(w, d, [part], before) == Eval(w, d, part, before)
    ensures EvalParts(w, d, [], before) == Outcome(true, before)
    ensures Eval(w, d, Item(Sequential, []), before) == Outcome(true, Enter(before))
    ensures Eval(w, d, Item(Sequential, [part]), before) == Eval(w, d, part, Enter(before))
  {
    EvalOf(w, d, Item(Sequential, []), before);
    EvalOf(w, d, Item(Sequential, [part]), before);
    hide Eval;
    assert forall st :: EvalParts(w, d, [part][1..], st) == Outcome(true, st);
    assert forall st :: EvalParts(w, d, [part], st) == Eval(w, d, part, st);
  }

  // ---------------------------------------------------------------- loops

  const I64: int := 0x8000_0000_0000_0000

  // a number that fits into 64 bit with its sign
  predicate IsLong(n: int) { -I64 <= n < I64 }

  /** What the 64-bit counter of a loop without sign makes of two signed bounds: it counts from the
      first to the last one, excluded, if both have the same sign, not at all from a negative to
      another number, and through the largest number to the smallest one from a number that is
      not negative to a negative one. */
  predicate Counts(first: int, last: int, range: seq<Data>) {
    |range| == (if first < 0 <= last || (last <= first && (last >= 0 || first < 0)) then 0
                else if last < 0 <= first then last - first + 2 * I64
                else last - first) &&
    forall i :: 0 <= i < |range| ==> range[i] == Int(if first + i < I64 then first + i else first + i - 2 * I64)
  }

  lemma CountsExactly(first: int, last: int)
    requires IsLong(first) && IsLong(last)
    ensures Counts(first, last, CounterValues(first, last))
  {
    AsUnsigned(first);
    AsUnsigned(last);
    var range := CounterValues(first, last);
    forall i | 0 <= i < |range|
      ensures range[i] == Int(if first + i < I64 then first + i else first + i - 2 * I64)
    {
      assert range[i] == Int(ToSigned(first % U64 + i));
    }
  }

  lemma AsUnsigned(n: int)
    requires IsLong(n)
    ensures n % U64 == if n < 0 then n + U64 else n
  {}

  // the values a loop takes one after another
  ghost predicate TakesRange(h: Host, g: Head, env: Env, range: seq<Data>)
    requires g.ForEach? || g.For?
  {
    if g.ForEach? then
      Fillable(h, env, g.iterate) && "array" in g.iterate.values &&
      var v := FillItem(h, env, g.iterate.values["array"]);
      v.Some? && v.value.item == Array(range)
    else
      var first, last := FillItem(h, env, g.start), FillItem(h, env, g.end);
      first.Some? && last.Some? && first.value.item.IsValue() && last.value.item.IsValue() &&
      IsLong(h.ToLong(first.value.item)) && IsLong(h.ToLong(last.value.item)) &&
      Counts(h.ToLong(first.value.item), h.ToLong(last.value.item), range)
  }

  lemma RangeIs(h: Host, g: Head, st: PlanState, range: seq<Data>)
    requires (g.ForEach? || g.For?) && TakesRange(h, g, st.items, range)
    ensures var s := SetupLoop(h, g, st);
      s.Loop? && s == Loop(g.tempVar, range, s.should, g.values, g.parallel)
    ensures g.ForEach? ==> SetupLoop(h, g, st).should == |range| % U32
    ensures g.For? ==>
      var first, last := FillItem(h, st.items, g.start).value.item, FillItem(h, st.items, g.end).value.item;
      SetupLoop(h, g, st).should == Target(h.ToLong(first), h.ToLong(last))
  {
    if g.For? {
      var first, last := FillItem(h, st.items, g.start).value.item, FillItem(h, st.items, g.end).value.item;
      CountsExactly(h.ToLong(first), h.ToLong(last));
      SameCounts(h.ToLong(first), h.ToLong(last), range, CounterValues(h.ToLong(first), h.ToLong(last)));
    }
    hide FillItem, CounterValues, Target, Counts;
  }

  lemma SameCounts(first: int, last: int, range: seq<Data>, range': seq<Data>)
    requires Counts(first, last, range) && Counts(first, last, range')
    ensures range == range'
  {}

  // the variables at the beginning of the first iteration
  ghost predicate LoopBegins(before: PlanState, values: ValueItemMap, start: PlanState) {
    start == Enter(before).(items := start.items) &&
    (forall k :: k in start.items <==> k in before.items || k in values.values) &&
    (forall k :: k in start.items ==>
      start.items[k] == if k in values.values then values.values[k].item else before.items[k])
  }

  /** A loop that is not parallel: the iterations run on the variables, with the values of the loop
      added or put in their place; afterwards each variable there was before has the value the
      iterations left in it, and all others are gone. A failure is kept as it is. */
  lemma LoopWrites(w: World, d: nat, item: Item, before: PlanState, range: seq<Data>, start: PlanState)
    requires (item.head.ForEach? || item.head.For?) && !item.head.parallel && |item.childs| == 1
    requires TakesRange(w.host, item.head, before.items, range) && LoopBegins(before, item.head.values, start)
    ensures var o, inner := Eval(w, d, item, before), EvalLoop(w, d, item.childs[0], item.head.tempVar, range, start);
      if !inner.ok then o == inner
      else
        o.ok && o.st == inner.st.(items := o.st.items) && o.st.items.Keys == before.items.Keys &&
        forall k :: k in before.items ==> k in inner.st.items && o.st.items[k] == inner.st.items[k]
  {
    hide Eval, EvalLoop, EvalFork, SetupLoop, TakesRange, FinishLoop, StartLoop, LoopBegins;
    var inner := EvalLoop(w, d, item.childs[0], item.head.tempVar, range, start);
    EvalOf(w, d, item, before);
    RangeIs(w.host, item.head, Enter(before), range);
    StartIs(before, item.head.values, start);
    LoopKeeps(w, d, item.childs[0], item.head.tempVar, range, start);
    FinishAt(before, item.head.values, start, inner);
  }

  lemma StartIs(before: PlanState, values: ValueItemMap, start: PlanState)
    requires LoopBegins(before, values, start)
    ensures StartLoop(values, Enter(before)) == start
  {
    assert StartLoop(values, Enter(before)).items == start.items;
  }

  lemma FinishAt(before: PlanState, values: ValueItemMap, start: PlanState, inner: Outcome)
    requires LoopBegins(before, values, start) && (inner.ok ==> start.items.Keys <= inner.st.items.Keys)
    ensures var o := FinishLoop(before.items, inner);
      if !inner.ok then o == inner
      else
        o.ok && o.st == inner.st.(items := o.st.items) && o.st.items.Keys == before.items.Keys &&
        forall k :: k in before.items ==> k in inner.st.items && o.st.items[k] == inner.st.items[k]
  {
    assert before.items.Keys <= start.items.Keys;
  }

  lemma {:induction false} LoopKeeps(w: World, d: nat, content: Item, name: string, range: seq<Data>, st: PlanState)
    ensures var o := EvalLoop(w, d, content, name, range, st);
      o.ok ==> st.items.Keys <= o.st.items.Keys
    decreases |range|
  {
    hide Eval;
    if range != [] {
      EvalScoped(w, d, content, BindVar(st, name, range[0]));
      var o := Eval(w, d, content, BindVar(st, name, range[0]));
      if o.ok { LoopKeeps(w, d, content, name, range[1..], o.st); }
    }
  }

  /** The first value is bound to the variable of the loop, and the other iterations run in the
      state the first one left; a failure ends the loop. */
  lemma LoopIterates(w: World, d: nat, content: Item, name: string, d0: Data, rest: seq<Data>, st: PlanState)
    ensures EvalLoop(w, d, content, name, [], st) == Outcome(true, st)
    ensures var o := Eval(w, d, content, st.(items := st.items[name := d0]));
      EvalLoop(w, d, content, name, [d0] + rest, st) == if o.ok then EvalLoop(w, d, content, name, rest, o.st) else o
  {
    hide Eval;
    assert ([d0] + rest)[1..] == rest;
  }

  /** A loop whose bounds cannot be filled fails and runs nothing. */
  lemma LoopFails(w: World, d: nat, item: Item, before: PlanState)
    ensures item.head.ForEach? && !Fillable(w.host, before.items, item.head.iterate) ==>
      Eval(w, d, item, before) == Outcome(false, Enter(before).(error := ForEachValues))
    ensures item.head.For? && (FillItem(w.host, before.items, item.head.start).None? ||
                               FillItem(w.host, before.items, item.head.end).None?) ==>
      Eval(w, d, item, before) == Outcome(false, Enter(before).(error := ForValues))
  {
    EvalOf(w, d, item, before);
    hide Eval, EvalLoop, EvalFork, FillItem, Fillable, FillMap;
  }

  // ---------------------------------------------------------------- forks

  // a plan of its own: the variables it is given, the position of its parent, and nothing else
  function FreshPlan(parent: PlanState, items: Env): PlanState {
    PlanState(items, parent.path, parent.names, Status(0, NoText), NoError, 0, true, [])
  }

  /** A parallel part forks one plan per branch, each with the variables of the parent. */
  lemma PartForks(w: World, d: nat, branches: seq<Item>, before: PlanState, f: Fork)
    requires f.st == Enter(before) && f.should == |branches| % U32 && f.join == MergeAll && |f.kids| == |branches|
    requires forall i :: 0 <= i < |branches| ==> f.kids[i] == Kid(branches[i], FreshPlan(before, before.items))
    ensures var item := Item(Parallel, [Item(Sequential, branches)]);
      ForkOf(item, f) && Eval(w, d, item, before) == EvalFork(w, d, item, f)
  {
    var item := Item(Parallel, [Item(Sequential, branches)]);
    EvalOf(w, d, item, before);
    hide Eval, EvalFork;
    assert f.kids == PartsFork(branches, Enter(before)).kids;
    assert f == PartsFork(item.childs[0].childs, Enter(before));
  }

  /** A parallel loop forks one plan per value, each with the value added to the variables of the
      parent; the values of the loop are aggregated afterwards. */
  lemma LoopForks(w: World, d: nat, item: Item, before: PlanState, range: seq<Data>, f: Fork)
    requires (item.head.ForEach? || item.head.For?) && item.head.parallel && |item.childs| == 1
    requires TakesRange(w.host, item.head, before.items, range)
    requires f.st == Enter(before) && f.join == Aggregate(item.head.values) && |f.kids| == |range|
    requires f.should == if item.head.ForEach? then |range| % U32 else
      (w.host.ToLong(FillItem(w.host, before.items, item.head.end).value.item) -
       w.host.ToLong(FillItem(w.host, before.items, item.head.start).value.item)) % U32
    requires forall i :: 0 <= i < |range| ==>
      f.kids[i] == Kid(item.childs[0], FreshPlan(before, before.items[item.head.tempVar := range[i]]))
    ensures ForkOf(item, f) && Eval(w, d, item, before) == EvalFork(w, d, item, f)
  {
    hide Eval, EvalFork, EvalLoop, SetupLoop, TakesRange, FillItem, Target;
    EvalOf(w, d, item, before);
    RangeIs(w.host, item.head, Enter(before), range);
    var s := SetupLoop(w.host, item.head, Enter(before));
    if item.head.For? {
      InRange(w.host, item.head, before.items, range);
      TargetCut(w.host.ToLong(FillItem(w.host, before.items, item.head.start).value.item),
                w.host.ToLong(FillItem(w.host, before.items, item.head.end).value.item));
    }
    assert f.kids == LoopFork(item.childs[0], s, Enter(before)).kids;
  }

  lemma InRange(h: Host, g: Head, env: Env, range: seq<Data>)
    requires g.For? && TakesRange(h, g, env, range)
    ensures var first, last := FillItem(h, env, g.start), FillItem(h, env, g.end);
      first.Some? && last.Some? && IsLong(h.ToLong(first.value.item)) && IsLong(h.ToLong(last.value.item))
  {}

  lemma TargetCut(first: int, last: int)
    requires IsLong(first) && IsLong(last)
    ensures Target(first, last) == (last - first) % U32
  {
    AsUnsigned(first);
    AsUnsigned(last);
    var n := (last % U64 - first % U64) % U64;
    Cut(n);
    assert n == if last >= first then last - first else last - first + U64;
    if last < first { Multiple(U32, last - first); }
  }

  // ---------------------------------------------------------------- trees and calls

  /** A tree does not begin with a variable that still holds the question mark; it runs its one part
      in the directory of its file, below its own name in the hierarchy, and leaves path and
      hierarchy as they were, the path after a success only. */
  lemma TreeRuns(w: World, d: nat, id: string, root: string, relative: string, values: ValueItemMap, part: Item,
                 before: PlanState)
    ensures var o := Eval(w, d, Item(Tree(id, root, relative, values), [part]), before);
      var inside := Enter(before).(path := root + "/" + relative, names := before.names + ["TREE: " + id]);
      var inner := Eval(w, d, part, inside);
      if exists k :: k in before.items && before.items[k] == Str("?") then
        o == Outcome(false, Enter(before).(error := Uninitialized))
      else
        o.ok == inner.ok &&
        o.st == inner.st.(names := before.names, path := if inner.ok then before.path else inner.st.path)
  {
    var t := Item(Tree(id, root, relative, values), [part]);
    EvalOf(w, d, t, before);
    var inside := Enter(before).(path := root + "/" + relative, names := before.names + ["TREE: " + id]);
    EvalScoped(w, d, part, inside);
    assert OpenTree(t, Enter(before)) == inside;
    assert (before.names + ["TREE: " + id])[..|before.names|] == before.names;
    assert Initialized(before.items) <==> !exists k :: k in before.items && before.items[k] == Str("?") by {
      assert forall k :: k in before.items ==> (before.items[k].GetString() == "?" <==> before.items[k] == Str("?"));
    }
    hide Eval;
  }

  /** A call looks for the tree at the path relative to the file it is in, the empty path stands
      for the root file. */
  lemma CallLeads(w: World, d: nat, name: string, values: ValueItemMap, before: PlanState)
    ensures var path := w.relative(before.path, name);
      var id := if path == "" then "root.sakura" else path;
      Eval(w, d, Item(Subtree(name, values), []), before) ==
        if id in w.trees then EvalCall(w, d, w.trees[id], values, Enter(before))
        else Outcome(false, Enter(before).(error := UnknownTree))
  {
    EvalOf(w, d, Item(Subtree(name, values), []), before);
    hide Eval, EvalCall;
  }
}
