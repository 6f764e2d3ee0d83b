// Calls of subtrees and resources: what the callee sees and what the caller gets back.
module Calls {
  import opened Values
  import opened Filling
  import opened Functions
  import opened Items
  import opened Semantics
  import opened Scoping
  import opened Isolation

  // the run of the callee on the caller's plan
  ghost function Inner(w: World, d: nat, t: Item, values: ValueItemMap, st: PlanState): Outcome
    requires Fillable(w.host, st.items, values) && t.head.Tree? && d > 0
  {
    Eval(w, d - 1, t, st.(items := ItemsOf(CallMap(w.host, t, values, st.items))))
  }

  // what a successful call offers to write into the caller's map
  ghost function Written(w: World, d: nat, t: Item, values: ValueItemMap, st: PlanState): Env
    requires Fillable(w.host, st.items, values) && t.head.Tree? && d > 0
  {
    ItemsOf(FillOutput(w.host, CallMap(w.host, t, values, st.items), Inner(w, d, t, values, st).st.items))
  }

  lemma CallResult(w: World, d: nat, t: Item, values: ValueItemMap, st: PlanState)
    requires Fillable(w.host, st.items, values) && t.head.Tree? && d > 0
    ensures var o, inner := EvalCall(w, d, t, values, st), Inner(w, d, t, values, st);
      o.ok == (inner.ok && OutputComplete(w.host, CallMap(w.host, t, values, st.items), inner.st.items)) &&
      o.st == inner.st.(items :=
        if o.ok then Override(st.items, Written(w, d, t, values, st), OnlyExisting) else inner.st.items)
  {
    hide Eval;
  }

  // the variables of the callee when it begins: what the call gives, else what is declared
  ghost predicate CalleeItems(h: Host, t: Item, values: ValueItemMap, env: Env, items: Env)
    requires t.head.Tree?
  {
    (forall k :: k in items <==> k in values.values || k in t.head.values.values) &&
    forall k :: k in items ==>
      if k in values.values then
        var v := FillItem(h, env, values.values[k]);
        v.Some? && items[k] == v.value.item
      else items[k] == t.head.values.values[k].item
  }

  /** The callee begins with what it declares and what the call gives, the call has precedence; it
      sees nothing else of its caller's variables. Without values that can be filled it does not
      run. */
  lemma CalleeBegins(w: World, d: nat, t: Item, values: ValueItemMap, st: PlanState, items: Env)
    requires t.head.Tree? && d > 0 && CalleeItems(w.host, t, values, st.items, items)
    ensures Fillable(w.host, st.items, values) ==> Inner(w, d, t, values, st) == Eval(w, d - 1, t, st.(items := items))
    ensures !Fillable(w.host, st.items, values) ==>
      EvalCall(w, d, t, values, st) == Outcome(false, st.(error := CallValues))
  {
    if Fillable(w.host, st.items, values) { CallItems(w.host, t, values, st.items, items); }
    hide Eval, CallMap, CalleeItems;
  }

  lemma CallItems(h: Host, t: Item, values: ValueItemMap, env: Env, items: Env)
    requires t.head.Tree? && Fillable(h, env, values) && CalleeItems(h, t, values, env, items)
    ensures ItemsOf(CallMap(h, t, values, env)) == items
  {
    hide FillItem;
    var filled := FillMap(h, env, values).values;
    assert forall k :: k in values.values ==> FillItem(h, env, values.values[k]) == Some(filled[k]);
  }

  /** Two callers in the same file, hierarchy and status whose filled call values agree, whatever
      else their plans hold: the callee runs the same on both, fails or succeeds the same and
      offers the same values; each caller's map changes at its own keys only. A failed call
      leaves the map of the callee on the plan. */
  lemma SubtreeIsolation(w: World, d: nat, t: Item, values: ValueItemMap, values': ValueItemMap,
                         st: PlanState, st': PlanState)
    requires Fillable(w.host, st.items, values) && Fillable(w.host, st'.items, values')
    requires FillMap(w.host, st.items, values).values == FillMap(w.host, st'.items, values').values
    requires st'.path == st.path && st'.names == st.names && st'.status == st.status && t.head.Tree? && d > 0
    ensures SameRun(st, st', Inner(w, d, t, values, st), Inner(w, d, t, values', st'))
    ensures var o, o' := EvalCall(w, d, t, values, st), EvalCall(w, d, t, values', st');
      o.ok == o'.ok && o'.st.status == o.st.status && Added(st, o.st) == Added(st', o'.st) &&
      (if o.ok then
         Written(w, d, t, values, st) == Written(w, d, t, values', st') &&
         o.st.items == Override(st.items, Written(w, d, t, values, st), OnlyExisting) &&
         o'.st.items == Override(st'.items, Written(w, d, t, values, st), OnlyExisting)
       else o.st.items == o'.st.items == Inner(w, d, t, values, st).st.items)
  {
    CallResult(w, d, t, values, st);
    CallResult(w, d, t, values', st');
    var called := CallMap(w.host, t, values, st.items);
    assert called == CallMap(w.host, t, values', st'.items);
    hide Eval, EvalCall, Override, CallMap, FillOutput, OutputComplete, Fillable, FillMap;
    RunSees(w, d - 1, t, st.(items := ItemsOf(called)), st'.(items := ItemsOf(called)));
  }

  /** The caller's map after a successful call, key by key: outputs get the callee's final
      value of the variable they name; inputs and declared defaults are written onto existing
      keys as well, with the value the callee started with; all other keys are unchanged. */
  lemma CallWrites(w: World, d: nat, t: Item, values: ValueItemMap, st: PlanState, k: string)
    requires Fillable(w.host, st.items, values) && t.head.Tree? && d > 0
    requires EvalCall(w, d, t, values, st).ok && k in st.items
    ensures var after, inner := EvalCall(w, d, t, values, st).st.items, Inner(w, d, t, values, st);
      var call, declared := FillMap(w.host, st.items, values).values, t.head.values.values;
      inner.ok && k in after &&
      if k !in call && k !in declared then after[k] == st.items[k]
      else
        var v := if k in call then call[k] else declared[k];
        if v.kind.Output? then
          w.host.ToString(v.item) in inner.st.items && after[k] == inner.st.items[w.host.ToString(v.item)]
        else after[k] == v.item
  {
    hide Eval, Fillable, FillMap;
    var called := CallMap(w.host, t, values, st.items);
    if k in called { assert OutputPresent(w.host, called[k], Inner(w, d, t, values, st).st.items); }
  }

  /** Exactly when a call succeeds, as far as its outputs go: the text of every output entry has
      to be one of the keys that are declared or given. That can be seen before the call, since
      the callee keeps its key set; an output declared without a value, whose text is empty,
      fails unless a variable has the empty name. */
  lemma OutputsDecideCall(w: World, d: nat, t: Item, values: ValueItemMap, st: PlanState)
    requires Fillable(w.host, st.items, values) && t.head.Tree? && d > 0
    ensures var called := CallMap(w.host, t, values, st.items);
      EvalCall(w, d, t, values, st).ok <==>
        Inner(w, d, t, values, st).ok &&
        forall k :: k in called && called[k].kind.Output? ==> w.host.ToString(called[k].item) in called
  {
    EvalScoped(w, d - 1, t, st.(items := ItemsOf(CallMap(w.host, t, values, st.items))));
    CallResult(w, d, t, values, st);
    hide Eval, EvalCall, CallMap, FillOutput, Fillable, FillMap;
    var called := CallMap(w.host, t, values, st.items);
    var inner := Inner(w, d, t, values, st);
    assert ItemsOf(called).Keys == called.Keys;
    if inner.ok {
      assert inner.st.items.Keys == called.Keys;
      assert OutputComplete(w.host, called, inner.st.items) <==>
        forall k :: k in called && called[k].kind.Output? ==> w.host.ToString(called[k].item) in called by {
        assert forall k :: k in called ==>
          (OutputPresent(w.host, called[k], inner.st.items) <==>
            (called[k].kind.Output? ==> w.host.ToString(called[k].item) in called));
      }
    }
  }
}
