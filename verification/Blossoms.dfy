// Blossoms and their groups, value by value: what a task receives, what its results are written
// to, and which of the values of a group a blossom takes over.
module Blossoms {
  import opened Values
  import opened Filling
  import opened Functions
  import opened Items
  import opened Semantics
  import opened Validator

  // ---------------------------------------------------------------- what a task receives

  // each entry by its own filled item
  ghost predicate EntriesGiven(h: Host, m: ValueItemMap, env: Env, input: Env) {
    forall k :: k in m.values ==>
      FillItem(h, env, m.values[k]).Some? && k in input && input[k] == FillItem(h, env, m.values[k]).value.item
  }

  // a child map where no entry has its name
  ghost predicate ChildsGiven(h: Host, m: ValueItemMap, env: Env, input: Env)
    requires Fillable(h, env, m)
  {
    forall k :: k in m.childs && k !in m.values ==>
      Fillable(h, env, m.childs[k]) && k in input && input[k] == Map(Convert(FillMap(h, env, m.childs[k])))
  }

  // all else are defaults of the blossom
  ghost predicate DefaultsAdded(def: BlossomDef, m: ValueItemMap, input: Env) {
    (forall k :: k in input <==>
      k in m.values || k in m.childs || (k in def.inputs && def.inputs[k].default_.Some?)) &&
    (forall k :: k in input && k !in m.values && k !in m.childs ==>
      k in def.inputs && def.inputs[k].default_ == Some(input[k]))
  }

  // the input of a task: what is given, and defaults of the blossom for what is not
  ghost predicate Given(h: Host, def: BlossomDef, m: ValueItemMap, env: Env, input: Env)
    requires Fillable(h, env, m)
  {
    EntriesGiven(h, m, env, input) && ChildsGiven(h, m, env, input) && DefaultsAdded(def, m, input)
  }

  /** A filled value map as a map of data items: each entry by its own filled item; a child map
      where no entry has its name, and it is made up in the same way. */
  lemma InputAt(h: Host, env: Env, m: ValueItemMap)
    requires Fillable(h, env, m)
    ensures var input := Convert(FillMap(h, env, m));
      input.Keys == m.values.Keys + m.childs.Keys && EntriesGiven(h, m, env, input) && ChildsGiven(h, m, env, input)
  {
    hide FillItem, Fillable, FillMap, Convert;
    FilledAt(h, env, m);
    ConvertedAt(FillMap(h, env, m));
  }

  lemma ConvertedAt(m: ValueItemMap)
    ensures Convert(m).Keys == m.values.Keys + m.childs.Keys
    ensures forall k :: k in m.values ==> Convert(m)[k] == m.values[k].item
    ensures forall k :: k in m.childs && k !in m.values ==> Convert(m)[k] == Map(Convert(m.childs[k]))
  {}

  // the fields of one direction that are present fit their definitions
  predicate Fits(h: Host, defs: map<string, FieldDef>, values: Env, io: IOType) {
    forall k :: k in defs && k in values && defs[k].io == io ==> FieldOk(h, defs[k], values[k])
  }

  /** The whole run of a blossom: it is looked up by group and kind, its task receives the given
      values and the defaults, the plan's variables, position and status, and runs only if the
      inputs fit; its status is kept, and its outputs have to fit as well. */
  lemma BlossomRuns(w: World, b: BlossomItem, st: PlanState) returns (task: TaskInput)
    requires Fillable(w.host, st.items, b.values)
    requires b.groupType in w.blossoms && b.kind in w.blossoms[b.groupType]
    ensures var def, o := w.blossoms[b.groupType][b.kind], RunBlossom(w, b, st);
      var r, after := def.run(task), st.(log := st.log + [Ran(b.groupType, b.kind, task)]);
      Given(w.host, def, b.values, st.items, task.input) &&
      task == TaskInput(task.input, st.items, st.path, st.names + ["BLOSSOM: " + b.name], w.context, st.status) &&
      if !Fits(w.host, def.inputs, task.input, InputField) then
        o == Outcome(false, st.(error := BadInput, status := Status(400, ValidationText)))
      else if !r.ok then o == Outcome(false, after.(error := TaskFailed(r.message), status := r.status))
      else if !Fits(w.host, def.outputs, r.output, OutputField) then
        o == Outcome(false, after.(error := BadOutput, status := Status(500, ValidationText)))
      else o.ok && o.st == after.(items := o.st.items, status := r.status)
  {
    hide Fillable, FillMap, FillDefaults, Convert, FillOutput, Override, ItemsOf, Given, Fits, BlossomValuesOk;
    var def := w.blossoms[b.groupType][b.kind];
    task := TaskOf(w, def, b, FillMap(w.host, st.items, b.values), st);
    DefaultsGiven(w.host, def, b.values, st.items);
    FitsMeans(w.host, def.inputs, task.input, InputField);
    FitsMeans(w.host, def.outputs, def.run(task).output, OutputField);
  }

  lemma DefaultsGiven(h: Host, def: BlossomDef, m: ValueItemMap, env: Env)
    requires Fillable(h, env, m)
    ensures Given(h, def, m, env, FillDefaults(def.inputs, Convert(FillMap(h, env, m))))
  {
    hide Fillable, FillMap, Convert, FillDefaults, EntriesGiven, ChildsGiven;
    InputAt(h, env, m);
    var input := Convert(FillMap(h, env, m));
    DefaultsAt(def.inputs, input);
    StillGiven(h, m, env, input, FillDefaults(def.inputs, input));
  }

  lemma StillGiven(h: Host, m: ValueItemMap, env: Env, input: Env, more: Env)
    requires Fillable(h, env, m) && EntriesGiven(h, m, env, input) && ChildsGiven(h, m, env, input)
    requires forall k :: k in input ==> k in more && more[k] == input[k]
    ensures EntriesGiven(h, m, env, more) && ChildsGiven(h, m, env, more)
  {
    hide Fillable, FillMap, FillItem, Convert;
  }

  lemma DefaultsAt(defs: map<string, FieldDef>, input: Env)
    ensures var all := FillDefaults(defs, input);
      (forall k :: k in all <==> k in input || (k in defs && defs[k].default_.Some?)) &&
      (forall k :: k in input ==> all[k] == input[k]) &&
      (forall k :: k in all && k !in input ==> k in defs && defs[k].default_ == Some(all[k]))
  {}

  lemma FitsMeans(h: Host, defs: map<string, FieldDef>, values: Env, io: IOType)
    ensures Fits(h, defs, values, io) <==> BlossomValuesOk(h, defs, values, io)
  {
    hide FieldOk;
  }

  /** Without such values or such a blossom nothing is run. */
  lemma BlossomFails(w: World, b: BlossomItem, st: PlanState)
    ensures !Fillable(w.host, st.items, b.values) ==>
      RunBlossom(w, b, st) == Outcome(false, st.(error := BlossomValues))
    ensures Fillable(w.host, st.items, b.values) &&
            (b.groupType !in w.blossoms || b.kind !in w.blossoms[b.groupType]) ==>
      RunBlossom(w, b, st) == Outcome(false, st.(error := UnknownBlossom))
  {
    hide Fillable, RunTask;
  }

  // the outputs are written in key order up to the first one the task did not give
  predicate WrittenTo(h: Host, m: ValueItemMap, output: Env, k: string) {
    forall other :: other in m.values && m.values[other].kind.Output? && KeyLe(other, k) ==>
      h.ToString(m.values[other].item) in output
  }

  /** The variables after a successful blossom: an output entry gives the variable of its name the
      task's output with its text; the other entries give theirs the filled item, and so do outputs
      that are not reached; a variable no entry names is unchanged. */
  lemma BlossomWrites(w: World, b: BlossomItem, st: PlanState, task: TaskInput, k: string)
    requires Fillable(w.host, st.items, b.values) && RunBlossom(w, b, st).ok && k in st.items
    requires b.groupType in w.blossoms && b.kind in w.blossoms[b.groupType]
    requires RunBlossom(w, b, st).st.log == st.log + [Ran(b.groupType, b.kind, task)]
    ensures var h, after := w.host, RunBlossom(w, b, st).st.items;
      var output := w.blossoms[b.groupType][b.kind].run(task).output;
      after.Keys == st.items.Keys &&
      if k !in b.values.values then after[k] == st.items[k]
      else
        var v := b.values.values[k];
        if v.kind.Output? && WrittenTo(h, b.values, output, k) then
          h.ToString(v.item) in output && after[k] == output[h.ToString(v.item)]
        else FillItem(h, st.items, v).Some? && after[k] == FillItem(h, st.items, v).value.item
  {
    hide Fillable, FillMap, FillItem, BlossomValuesOk, FillOutput, TaskOf, WrittenTo;
    var def, filled := w.blossoms[b.groupType][b.kind], FillMap(w.host, st.items, b.values);
    assert st.log + [Ran(b.groupType, b.kind, task)] ==
      st.log + [Ran(b.groupType, b.kind, TaskOf(w, def, b, filled, st))];
    assert (st.log + [Ran(b.groupType, b.kind, task)])[|st.log|] ==
      Ran(b.groupType, b.kind, TaskOf(w, def, b, filled, st));
    OutputsAt(w.host, st.items, b.values, def.run(task).output, k);
  }

  lemma OutputsAt(h: Host, env: Env, m: ValueItemMap, output: Env, k: string)
    requires Fillable(h, env, m)
    ensures var written := FillOutput(h, FillMap(h, env, m).values, output);
      written.Keys == m.values.Keys &&
      (k in m.values ==>
        var v := m.values[k];
        if v.kind.Output? && WrittenTo(h, m, output, k) then
          h.ToString(v.item) in output && written[k].item == output[h.ToString(v.item)]
        else FillItem(h, env, v).Some? && written[k].item == FillItem(h, env, v).value.item)
  {
    var filled := FillMap(h, env, m).values;
    OutputsStay(h, env, m);
    KeyLeTotal(k, k);
    assert OutputReached(h, filled, output, k) <==> WrittenTo(h, m, output, k) by {
      assert forall other :: other in filled ==>
        (OutputPresent(h, filled[other], output) <==>
          (m.values[other].kind.Output? ==> h.ToString(m.values[other].item) in output));
    }
    hide FillItem, Fillable, FillMap;
  }

  // filling leaves outputs alone
  lemma OutputsStay(h: Host, env: Env, m: ValueItemMap)
    requires Fillable(h, env, m)
    ensures var filled := FillMap(h, env, m).values;
      filled.Keys == m.values.Keys &&
      forall k :: k in m.values ==>
        FillItem(h, env, m.values[k]) == Some(filled[k]) && filled[k].kind == m.values[k].kind &&
        (m.values[k].kind.Output? ==> filled[k] == m.values[k])
  {}

  // ---------------------------------------------------------------- groups

  /** A blossom with name and type of its group: an entry of its own is kept, one that only the
      group has is taken over, and there are no others. */
  ghost predicate TakenOver(merged: BlossomItem, b: BlossomItem, id: string, groupType: string, values: ValueItemMap) {
    merged.name == id && merged.kind == b.kind && merged.groupType == groupType &&
    merged.values.childs == b.values.childs &&
    (forall k :: k in merged.values.values <==> k in b.values.values || k in values.values) &&
    (forall k :: k in merged.values.values ==>
      merged.values.values[k] == if k in b.values.values then b.values.values[k] else values.values[k])
  }

  lemma OneTakenOver(merged: BlossomItem, b: BlossomItem, id: string, groupType: string, values: ValueItemMap)
    requires TakenOver(merged, b, id, groupType, values)
    ensures merged == InGroup(b, id, groupType, values)
  {
    assert merged.values.values == InGroup(b, id, groupType, values).values.values;
  }

  /** The blossoms of a group run one after another, each with what it takes over; a failure ends
      the group, and so does the name of a resource, which is called with the group's values. */
  lemma GroupRuns(w: World, d: nat, item: Item, before: PlanState, id: string, b: BlossomItem,
                  rest: seq<BlossomItem>, merged: BlossomItem)
    requires item.head.Group? && item.head.blossoms == [b] + rest
    requires w.host.jinja(item.head.id, before.items) == Some(id)
    requires TakenOver(merged, b, id, item.head.groupType, item.head.values)
    ensures var g, st := item.head, before.(log := before.log + [Entered]);
      var total, first := Eval(w, d, item, before), RunBlossom(w, merged, st);
      if b.kind in w.resources then total == EvalCall(w, d, w.resources[b.kind], g.values, st)
      else if !first.ok then total == first
      else
        var end := RunGroup(w, id, g.groupType, g.values, rest, first.st);
        if end.Ended? then total == end.o else total == EvalCall(w, d, end.tree, g.values, end.st)
  {
    EvalOf(w, d, item, before);
    OneTakenOver(merged, b, id, item.head.groupType, item.head.values);
    hide Eval, EvalCall, RunBlossom, TakenOver, InGroup;
  }

  /** Two parts of the blossoms of a group, one after the other. */
  lemma {:induction false} GroupSplits(w: World, id: string, groupType: string, values: ValueItemMap,
                                       first: seq<BlossomItem>, rest: seq<BlossomItem>, st: PlanState)
    ensures var end := RunGroup(w, id, groupType, values, first, st);
      RunGroup(w, id, groupType, values, first + rest, st) ==
        if end.Ended? && end.o.ok then RunGroup(w, id, groupType, values, rest, end.o.st) else end
    ensures RunGroup(w, id, groupType, values, [], st) == Ended(Outcome(true, st))
    decreases |first|
  {
    hide RunBlossom, InGroup;
    if first == [] {
      assert first + rest == rest;
    } else {
      assert (first + rest)[0] == first[0] && (first + rest)[1..] == first[1..] + rest;
      if first[0].kind !in w.resources {
        var o := RunBlossom(w, InGroup(first[0], id, groupType, values), st);
        if o.ok { GroupSplits(w, id, groupType, values, first[1..], rest, o.st); }
      }
    }
  }

  /** A group is accepted iff each of its blossoms is accepted as a blossom with what it takes over,
      and that is what validation leaves in the tree. */
  lemma GroupChecked(w: World, item: Item, merged: seq<BlossomItem>)
    requires item.head.Group? && |merged| == |item.head.blossoms|
    requires forall i :: 0 <= i < |merged| ==>
      TakenOver(merged[i], item.head.blossoms[i], item.head.id, item.head.groupType, item.head.values)
    ensures Checked(w, item) <==> forall i :: 0 <= i < |merged| ==> Checked(w, Item(Blossom(merged[i]), []))
    ensures Merged(item) == Item(Group(item.head.id, item.head.groupType, item.head.values, merged), item.childs)
  {
    hide TakenOver, BlossomChecked;
    var g := item.head;
    forall i | 0 <= i < |merged| ensures merged[i] == InGroup(g.blossoms[i], g.id, g.groupType, g.values) {
      OneTakenOver(merged[i], g.blossoms[i], g.id, g.groupType, g.values);
    }
    assert MergedBlossoms(g, |g.blossoms|) == merged;
  }

  // ---------------------------------------------------------------- what validation accepts

  // an input entry gives the field of its own name, an output entry takes the one its text names
  predicate Gives(m: ValueItemMap, k: string) { k in m.values && m.values[k].kind.Input? }

  predicate Takes(h: Host, m: ValueItemMap, entry: string, k: string) {
    entry in m.values && m.values[entry].kind.Output? && h.ToString(m.values[entry].item) == k
  }

  /** If two entries stand for the same field the first one in key order decides its direction. */
  lemma FirstDecides(h: Host, m: ValueItemMap, entry: string, k: string, io: IOType)
    requires (entry == k && Gives(m, k)) || Takes(h, m, entry, k)
    requires Gives(m, k) ==> KeyLe(entry, k)
    requires forall other :: Takes(h, m, other, k) ==> KeyLe(entry, other)
    ensures Compared(h, m, k, io) <==> io == if Gives(m, k) && entry == k then InputField else OutputField
  {
    assert forall other :: Names(h, m.values, other, k) <==> (other == k && Gives(m, k)) || Takes(h, m, other, k);
    assert FirstNames(h, m.values, entry, k);
    forall other | FirstNames(h, m.values, other, k) ensures other == entry { KeyLeTotal(other, entry); }
  }

  // no field is both given and taken, or taken twice
  ghost predicate OnceEach(h: Host, m: ValueItemMap) {
    (forall k, entry :: Gives(m, k) ==> !Takes(h, m, entry, k)) &&
    forall k, a, b :: Takes(h, m, a, k) && Takes(h, m, b, k) ==> a == b
  }

  lemma ComparedOnce(h: Host, m: ValueItemMap, k: string)
    requires OnceEach(h, m)
    ensures Compared(h, m, k, InputField) <==> Gives(m, k) || (k in m.childs && !exists e :: Takes(h, m, e, k))
    ensures Compared(h, m, k, OutputField) <==> exists e :: Takes(h, m, e, k)
  {
    assert forall e :: Names(h, m.values, e, k) <==> (e == k && Gives(m, k)) || Takes(h, m, e, k);
    KeyLeTotal(k, k);
    if Gives(m, k) {
      FirstDecides(h, m, k, k, InputField);
      FirstDecides(h, m, k, k, OutputField);
    } else if exists e :: Takes(h, m, e, k) {
      var e :| Takes(h, m, e, k);
      KeyLeTotal(e, e);
      FirstDecides(h, m, e, k, InputField);
      FirstDecides(h, m, e, k, OutputField);
    }
  }

  // fields are registered with their direction
  predicate Directed(def: BlossomDef) {
    (forall k :: k in def.inputs ==> def.inputs[k].io.InputField?) &&
    (forall k :: k in def.outputs ==> def.outputs[k].io.OutputField?)
  }

  // only known fields are given or taken
  ghost predicate KnownOnly(h: Host, def: BlossomDef, m: ValueItemMap) {
    (forall k :: Gives(m, k) || k in m.childs ==> k in def.inputs || k in def.outputs) &&
    (forall k, e :: Takes(h, m, e, k) ==> k in def.inputs || k in def.outputs)
  }

  // required inputs are given, by an entry or a child map, and required outputs taken
  ghost predicate RequiredThere(h: Host, def: BlossomDef, m: ValueItemMap) {
    (forall k :: k in def.inputs && def.inputs[k].isRequired ==>
      Gives(m, k) || (k in m.childs && !exists e :: Takes(h, m, e, k))) &&
    (forall k :: k in def.outputs && k !in def.inputs && def.outputs[k].isRequired ==> exists e :: Takes(h, m, e, k))
  }

  lemma KnownMeans(h: Host, def: BlossomDef, m: ValueItemMap)
    requires OnceEach(h, m)
    ensures (forall k, io :: Compared(h, m, k, io) ==> k in ValidationMap(def)) <==> KnownOnly(h, def, m)
  {
    hide Compared, Gives, Takes, OnceEach;
    var fields := ValidationMap(def);
    if KnownOnly(h, def, m) {
      forall k, io | Compared(h, m, k, io) ensures k in fields {
        ComparedOnce(h, m, k);
        if io.InputField? {
          assert Compared(h, m, k, InputField);
        } else {
          assert Compared(h, m, k, OutputField);
          var e :| Takes(h, m, e, k);
        }
      }
    }
    if forall k, io :: Compared(h, m, k, io) ==> k in fields {
      forall k | Gives(m, k) || k in m.childs ensures k in fields {
        ComparedOnce(h, m, k);
        assert Compared(h, m, k, InputField) || Compared(h, m, k, OutputField);
      }
      forall k, e | Takes(h, m, e, k) ensures k in fields {
        ComparedOnce(h, m, k);
        assert Compared(h, m, k, OutputField);
      }
    }
  }

  lemma RequiredMeans(h: Host, def: BlossomDef, m: ValueItemMap)
    requires Directed(def) && OnceEach(h, m)
    ensures (forall k :: k in ValidationMap(def) && ValidationMap(def)[k].isRequired ==>
              Compared(h, m, k, ValidationMap(def)[k].io)) <==> RequiredThere(h, def, m)
  {
    hide Compared, Gives, Takes, OnceEach;
    var fields := ValidationMap(def);
    forall k | k in fields
      ensures Compared(h, m, k, fields[k].io) <==>
        if k in def.inputs then Gives(m, k) || (k in m.childs && !exists e :: Takes(h, m, e, k))
        else exists e :: Takes(h, m, e, k)
    {
      ComparedOnce(h, m, k);
    }
    assert forall k :: k in def.inputs ==> k in fields && fields[k] == def.inputs[k];
    assert forall k :: k in def.outputs && k !in def.inputs ==> k in fields && fields[k] == def.outputs[k];
  }

  /** Validation accepts values that stand for each field at most once iff only known fields are
      given or taken, unless the blossom allows others, and all required inputs are given and all
      required outputs taken. */
  lemma AcceptsExactly(h: Host, def: BlossomDef, m: ValueItemMap)
    requires Directed(def) && OnceEach(h, m)
    ensures Accepts(h, def, m) <==> (def.allowUnmatched || KnownOnly(h, def, m)) && RequiredThere(h, def, m)
  {
    hide Compared, Gives, Takes, OnceEach, KnownOnly, RequiredThere, ValidationMap;
    KnownMeans(h, def, m);
    RequiredMeans(h, def, m);
  }

  /** A blossom of its own is accepted if it names a resource or a registered blossom that accepts
      its values; calls are always accepted, and a node with branches iff all its branches are. */
  lemma CheckedExactly(w: World, b: BlossomItem, head: Head, childs: seq<Item>)
    requires !head.Blossom? && !head.Group?
    ensures Checked(w, Item(Blossom(b), childs)) <==>
      b.kind in w.resources ||
      (b.groupType in w.blossoms && b.kind in w.blossoms[b.groupType] &&
       Accepts(w.host, w.blossoms[b.groupType][b.kind], b.values))
    ensures Checked(w, Item(head, childs)) <==> head.Subtree? || forall i :: 0 <= i < |childs| ==> Checked(w, childs[i])
    ensures Merged(Item(head, childs)).head == head && |Merged(Item(head, childs)).childs| == |childs|
    ensures forall i :: 0 <= i < |childs| ==>
      Merged(Item(head, childs)).childs[i] == if head.Subtree? then childs[i] else Merged(childs[i])
  {
    hide Accepts;
  }
}
