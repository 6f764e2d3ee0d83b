// Growth plans as the program holds them: a plan, the counter its children share and the
// copies of subtrees they run.
module Plans {
  import opened Values
  import opened Filling
  import opened Items
  import opened Semantics
  import opened Counter
  import opened Nodes

  class GrowthPlan {
    const completeSubtree: Node?
    const activeCounter: ActiveCounter
    var items: Env
    var filePath: string
    var hirarchy: seq<string>
    var status: Status
    var error: Error
    var success: bool
    var childPlans: seq<GrowthPlan>
    var postAggregation: ValueItemMap
    ghost var clean: bool
    ghost var log: seq<Event>

    ghost function State(): PlanState
      reads this, activeCounter
    {
      PlanState(items, filePath, hirarchy, status, error, activeCounter.isCounter as nat, clean, log)
    }

    constructor (subtree: Node?, items: Env, filePath: string, hirarchy: seq<string>)
      ensures completeSubtree == subtree && fresh(activeCounter) && success && childPlans == []
      ensures State() == PlanState(items, filePath, hirarchy, Status(0, NoText), NoError, 0, true, [])
    {
      this.completeSubtree, this.items, this.filePath, this.hirarchy := subtree, items, filePath, hirarchy;
      this.status, this.error, this.success := Status(0, NoText), NoError, true;
      this.childPlans, this.postAggregation, this.clean, this.log := [], EMPTY_MAP, true, [];
      this.activeCounter := new ActiveCounter();
    }

    // the objects a run of this plan changes
    ghost function Foot(): set<object> {
      {this, activeCounter} + if completeSubtree == null then {} else completeSubtree.Repr
    }

    // not taken from the queue yet
    ghost predicate Pending(kid: Kid, height: nat)
      reads Foot()
    {
      State() == kid.st && success && childPlans == [] && completeSubtree != null && completeSubtree.Shape() &&
      completeSubtree.Current() == kid.item && completeSubtree.height < height
    }

    ghost predicate Done(o: Outcome)
      reads this, activeCounter
    {
      Outcome(success, State()) == o
    }

    ghost predicate Stage(pending: bool, kid: Kid, o: Outcome, height: nat)
      reads Foot()
    {
      if pending then Pending(kid, height) else Done(o)
    }

    /** getErrorResult */
    method GetErrorResult(ghost os: seq<Outcome>)
      requires |os| == |childPlans| && this !in childPlans
      requires forall i :: 0 <= i < |os| ==> childPlans[i].Done(os[i])
      modifies this`error, this`status, this`success
      ensures State() == TakeError(old(State()), os)
      ensures success == (old(success) && AllOk(os))
    {
      hide TakeError, AllOk;
      ghost var before := State();
      NoErrorYet(before, os);
      for i := 0 to |childPlans|
        invariant childPlans == old(childPlans)
        invariant forall j :: 0 <= j < |os| ==> childPlans[j].Done(os[j])
        invariant State() == TakeError(before, os[..i])
        invariant success == (old(success) && AllOk(os[..i]))
      {
        var child := childPlans[i];
        assert child.Done(os[i]);
        ErrorStep(before, os, i);
        if !child.success {
          error := child.error;
          status := child.status;
          success := child.success;
        }
      }
      assert os[..|os|] == os;
    }

    /** the merge loop of spawnParallelSubtrees */
    method MergeChilds(ghost os: seq<Outcome>)
      requires |os| == |childPlans| && this !in childPlans
      requires forall i :: 0 <= i < |os| ==> childPlans[i].Done(os[i])
      modifies this`items
      ensures items == MergeItems(old(items), os)
    {
      for i := 0 to |childPlans|
        invariant childPlans == old(childPlans)
        invariant forall j :: 0 <= j < |os| ==> childPlans[j].Done(os[j])
        invariant items == MergeItems(old(items), os[..i])
      {
        assert childPlans[i].Done(os[i]) && os[..i + 1][..i] == os[..i];
        items := OverrideItems(items, childPlans[i].items, All);
      }
      assert os[..|os|] == os;
    }

    /** the aggregation loop of spawnParallelSubtreesLoop, up to the first step that fails */
    method AggregateChilds(h: Host, ghost os: seq<Outcome>) returns (ok: bool)
      requires |os| == |childPlans| && this !in childPlans
      requires forall i :: 0 <= i < |os| ==> childPlans[i].Done(os[i])
      modifies this`postAggregation
      ensures ok <==> Aggregated(h, old(postAggregation), os).Some?
      ensures ok ==> postAggregation == Aggregated(h, old(postAggregation), os).value
    {
      hide Fillable, FillMap, Aggregated;
      ghost var values := postAggregation;
      NothingAggregated(h, values, os);
      for i := 0 to |childPlans|
        invariant childPlans == old(childPlans)
        invariant forall j :: 0 <= j < |os| ==> childPlans[j].Done(os[j])
        invariant Aggregated(h, values, os[..i]) == Some(postAggregation)
      {
        assert childPlans[i].Done(os[i]);
        AggregationStep(h, values, os, i);
        var filled, result := FillInputValueItemMap(h, postAggregation, childPlans[i].items);
        if !filled {
          AggregationStops(h, values, os, i + 1);
          return false;
        }
        postAggregation := result;
      }
      assert os[..|os|] == os;
      ok := true;
    }
  }

  lemma NoErrorYet(st: PlanState, os: seq<Outcome>)
    ensures TakeError(st, os[..0]) == st && AllOk(os[..0])
  {}

  lemma ErrorStep(st: PlanState, os: seq<Outcome>, i: nat)
    requires i < |os|
    ensures TakeError(st, os[..i + 1]) ==
      var before := TakeError(st, os[..i]);
      if os[i].ok then before else before.(error := os[i].st.error, status := os[i].st.status)
    ensures AllOk(os[..i + 1]) == (AllOk(os[..i]) && os[i].ok)
  {
    assert os[..i + 1][..i] == os[..i];
  }

  lemma NothingAggregated(h: Host, values: ValueItemMap, os: seq<Outcome>)
    ensures Aggregated(h, values, os[..0]) == Some(values)
  {}

  lemma AggregationStep(h: Host, values: ValueItemMap, os: seq<Outcome>, i: nat)
    requires i < |os| && Aggregated(h, values, os[..i]).Some?
    ensures var before, env := Aggregated(h, values, os[..i]).value, os[i].st.items;
      Aggregated(h, values, os[..i + 1]) == if Fillable(h, env, before) then Some(FillMap(h, env, before)) else None
  {
    assert os[..i + 1][..i] == os[..i];
  }

  lemma {:induction false} AggregationStops(h: Host, values: ValueItemMap, os: seq<Outcome>, n: nat)
    requires n <= |os| && Aggregated(h, values, os[..n]).None?
    ensures Aggregated(h, values, os).None?
    decreases |os| - n
  {
    if n < |os| {
      assert os[..n + 1][..n] == os[..n];
      AggregationStops(h, values, os, n + 1);
    } else {
      assert os[..n] == os;
    }
  }

  // ---------------------------------------------------------------- children

  ghost function Feet(plans: seq<GrowthPlan>): set<object> { set p, x | p in plans && x in p.Foot() :: x }

  // no two plans share an object
  ghost predicate Separate(plans: seq<GrowthPlan>) {
    forall i, j :: 0 <= i < j < |plans| ==> plans[i].Foot() !! plans[j].Foot()
  }

  // plans for the first children of a fork
  ghost predicate Childs(plans: seq<GrowthPlan>, kids: seq<Kid>, height: nat)
    reads Feet(plans)
  {
    |plans| <= |kids| && Separate(plans) &&
    forall i :: 0 <= i < |plans| ==> plans[i].Foot() <= Feet(plans) && plans[i].Pending(kids[i], height)
  }

  lemma NoChilds(kids: seq<Kid>, height: nat)
    ensures Childs([], kids, height) && Feet([]) == {}
  {}

  lemma MoreChilds(plans: seq<GrowthPlan>, plan: GrowthPlan, kids: seq<Kid>, height: nat)
    requires Childs(plans, kids, height) && |plans| < |kids|
    requires plan.Foot() !! Feet(plans) && plan.Pending(kids[|plans|], height)
    ensures Childs(plans + [plan], kids, height)
    ensures Feet(plans + [plan]) == Feet(plans) + plan.Foot()
  {
    hide GrowthPlan.Foot, GrowthPlan.Pending;
    var more := plans + [plan];
    forall x ensures x in Feet(more) <==> x in Feet(plans) || x in plan.Foot() {
      if x in plan.Foot() { assert plan in more; }
      if x in Feet(plans) { var p :| p in plans && x in p.Foot(); assert p in more; }
    }
    forall i | 0 <= i < |more| ensures more[i].Foot() <= Feet(more) {
      forall x | x in more[i].Foot() ensures x in Feet(more) {}
    }
  }

  /** A child plan with a copy of the subtree and the items, added to the plan. */
  method AddChild(plan: GrowthPlan, subtree: Node, items: Env,
                  ghost kids: seq<Kid>, ghost height: nat, ghost used: set<object>)
    returns (ghost more: set<object>)
    requires Childs(plan.childPlans, kids, height) && |plan.childPlans| < |kids|
    requires used == Feet(plan.childPlans) && plan !in used
    requires subtree.Shape() && subtree.height < height
    requires kids[|plan.childPlans|] == Kid(subtree.Current(), ChildState(plan.State(), items))
    modifies plan`childPlans
    ensures |plan.childPlans| == |old(plan.childPlans)| + 1 && Childs(plan.childPlans, kids, height)
    ensures more == Feet(plan.childPlans) && used <= more && fresh(more - used)
  {
    hide Node.Shape, Node.Current, Childs, Feet;
    ghost var plans := plan.childPlans;
    var copy := subtree.Copy();
    var child := new GrowthPlan(copy, items, plan.filePath, plan.hirarchy);
    assert child.Pending(kids[|plans|], height);
    MoreChilds(plans, child, kids, height);
    plan.childPlans := plan.childPlans + [child];
    more := used + child.Foot();
  }
}
