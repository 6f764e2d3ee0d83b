// Static validation of trees before they are registered, and what it guarantees for runs.
module Validator {
  import opened Values
  import opened Functions
  import opened Items
  import opened Semantics
  import opened Nodes

  // ---------------------------------------------------------------- one blossom

  // an entry of a blossom stands for the field k: an input by its key, an output by its text
  predicate Names(h: Host, values: map<string, ValueItem>, entry: string, k: string) {
    entry in values &&
    if values[entry].kind.Input? then entry == k
    else values[entry].kind.Output? && h.ToString(values[entry].item) == k
  }

  // of the entries that stand for the same field the first one in key order counts
  ghost predicate FirstNames(h: Host, values: map<string, ValueItem>, entry: string, k: string) {
    Names(h, values, entry, k) && forall other :: Names(h, values, other, k) ==> KeyLe(entry, other)
  }

  function Direction(v: ValueItem): IOType { if v.kind.Output? then OutputField else InputField }

  /** The direction the values of a blossom give to the field k. */
  ghost predicate Compared(h: Host, m: ValueItemMap, k: string, io: IOType) {
    (exists entry :: FirstNames(h, m.values, entry, k) && Direction(m.values[entry]) == io) ||
    ((forall entry :: !Names(h, m.values, entry, k)) && k in m.childs && io.InputField?)
  }

  /** getCompareMap: emplace keeps the entry that came first */
  method GetCompareMap(h: Host, valueMap: ValueItemMap) returns (compareMap: map<string, IOType>)
    ensures forall k, io :: k in compareMap && compareMap[k] == io <==> Compared(h, valueMap, k, io)
  {
    ghost var values := valueMap.values;
    ghost var source: map<string, string>;
    compareMap, source := CompareValues(h, valueMap.values);
    var fromValues := compareMap;
    var todo := valueMap.childs.Keys;
    while todo != {}
      invariant todo <= valueMap.childs.Keys
      invariant forall k :: k in compareMap <==> k in fromValues || (k in valueMap.childs && k !in todo)
      invariant forall k :: k in compareMap ==> compareMap[k] == if k in fromValues then fromValues[k] else InputField
      decreases todo
    {
      LeastKeyExists(todo);
      var k :| IsLeastKey(k, todo);
      todo := todo - {k};
      if k !in compareMap { compareMap := compareMap[k := InputField]; }
    }
    forall k, io ensures k in compareMap && compareMap[k] == io <==> Compared(h, valueMap, k, io) {
      if k in source {
        assert FirstNames(h, values, source[k], k);
        forall entry | FirstNames(h, values, entry, k) ensures entry == source[k] { KeyLeTotal(entry, source[k]); }
      }
    }
  }

  method CompareValues(h: Host, values: map<string, ValueItem>)
    returns (compareMap: map<string, IOType>, ghost source: map<string, string>)
    ensures source.Keys == compareMap.Keys
    ensures forall k :: k in source ==>
      FirstNames(h, values, source[k], k) && compareMap[k] == Direction(values[source[k]])
    ensures forall entry, k :: Names(h, values, entry, k) ==> k in source
  {
    compareMap, source := map[], map[];
    var todo := values.Keys;
    while todo != {}
      invariant todo <= values.Keys && source.Keys == compareMap.Keys
      invariant InKeyOrder(values.Keys, todo)
      invariant forall k :: k in source ==>
        source[k] !in todo && FirstNames(h, values, source[k], k) && compareMap[k] == Direction(values[source[k]])
      invariant forall entry, k :: Names(h, values, entry, k) && entry !in todo ==> k in source
      decreases todo
    {
      LeastKeyExists(todo);
      var key :| IsLeastKey(key, todo);
      todo := todo - {key};
      if values[key].kind.Input? || values[key].kind.Output? {
        var name := if values[key].kind.Input? then key else h.ToString(values[key].item);
        assert Names(h, values, key, name);
        if name !in compareMap {
          forall other | Names(h, values, other, name) ensures KeyLe(key, other) {
            assert other in todo || other == key;
          }
          compareMap, source := compareMap[name := Direction(values[key])], source[name := key];
        }
      }
    }
  }

  // inputs take precedence over outputs of the same name
  function ValidationMap(def: BlossomDef): map<string, FieldDef> { def.outputs + def.inputs }

  /** What validateInput accepts: only known fields, unless the blossom allows others, and all
      required fields in their direction. */
  ghost predicate Accepts(h: Host, def: BlossomDef, m: ValueItemMap) {
    var fields := ValidationMap(def);
    (def.allowUnmatched || forall k, io :: Compared(h, m, k, io) ==> k in fields) &&
    (forall k :: k in fields && fields[k].isRequired ==> Compared(h, m, k, fields[k].io))
  }

  /** validateInput */
  method ValidateInput(h: Host, def: BlossomDef, valueMap: ValueItemMap) returns (ok: bool)
    ensures ok <==> Accepts(h, def, valueMap)
  {
    var compareMap := GetCompareMap(h, valueMap);
    var fields := ValidationMap(def);
    if !def.allowUnmatched {
      var todo := compareMap.Keys;
      while todo != {}
        invariant todo <= compareMap.Keys && forall k :: k in compareMap && k !in todo ==> k in fields
        decreases todo
      {
        LeastKeyExists(todo);
        var k :| IsLeastKey(k, todo);
        todo := todo - {k};
        if k !in fields {
          assert Compared(h, valueMap, k, compareMap[k]);
          return false;
        }
      }
    }
    var todo := fields.Keys;
    while todo != {}
      invariant todo <= fields.Keys
      invariant forall k :: k in fields && k !in todo && fields[k].isRequired ==> Compared(h, valueMap, k, fields[k].io)
      decreases todo
    {
      LeastKeyExists(todo);
      var k :| IsLeastKey(k, todo);
      todo := todo - {k};
      if fields[k].isRequired && (k !in compareMap || compareMap[k] != fields[k].io) { return false; }
    }
    ok := true;
  }

  // ---------------------------------------------------------------- trees

  /** checkBlossomItem: names of resources are not checked */
  ghost predicate BlossomChecked(w: World, b: BlossomItem) {
    b.kind in w.resources ||
    (w.GetBlossom(b.groupType, b.kind).Some? && Accepts(w.host, w.GetBlossom(b.groupType, b.kind).value, b.values))
  }

  method CheckBlossomItem(w: World, b: BlossomItem) returns (ok: bool)
    ensures ok <==> BlossomChecked(w, b)
  {
    if b.kind in w.resources { return true; }
    var blossom := w.GetBlossom(b.groupType, b.kind);
    if blossom.None? { return false; }
    ok := ValidateInput(w.host, blossom.value, b.values);
  }

  /** checkSakuraItem: all blossoms of an item, those of a group with the group's values */
  ghost predicate Checked(w: World, item: Item)
    decreases item
  {
    match item.head
    case Blossom(b) => BlossomChecked(w, b)
    case Group(id, groupType, values, blossoms) =>
      forall i :: 0 <= i < |blossoms| ==> BlossomChecked(w, InGroup(blossoms[i], id, groupType, values))
    case Subtree(_, _) => true
    case _ => forall i :: 0 <= i < |item.childs| ==> Checked(w, item.childs[i])
  }

  // what checkSakuraItem makes of a tree: blossoms have taken over the values of their groups
  function MergedBlossoms(g: Head, n: nat): (r: seq<BlossomItem>)
    requires g.Group? && n <= |g.blossoms|
    ensures |r| == n && forall i :: 0 <= i < n ==> r[i] == InGroup(g.blossoms[i], g.id, g.groupType, g.values)
  {
    if n == 0 then []
    else MergedBlossoms(g, n - 1) + [InGroup(g.blossoms[n - 1], g.id, g.groupType, g.values)]
  }

  function MergedHead(g: Head): Head {
    if g.Group? then Group(g.id, g.groupType, g.values, MergedBlossoms(g, |g.blossoms|)) else g
  }

  function Merged(item: Item): Item
    decreases item, 0
  {
    Item(MergedHead(item.head),
         if item.head.Blossom? || item.head.Group? || item.head.Subtree? then item.childs else MergedItems(item.childs))
  }

  function MergedItems(items: seq<Item>): (r: seq<Item>)
    ensures |r| == |items| && forall i :: 0 <= i < |items| ==> r[i] == Merged(items[i])
    decreases items, |items|
  {
    if items == [] then [] else MergedItems(items[..|items| - 1]) + [Merged(items[|items| - 1])]
  }

  /** Taking over the group's values a second time, at run time, changes nothing more. */
  lemma MergeIsIdempotent(b: BlossomItem, id: string, id': string, groupType: string, values: ValueItemMap)
    ensures InGroup(InGroup(b, id, groupType, values), id', groupType, values) == InGroup(b, id', groupType, values)
  {}

  // ---------------------------------------------------------------- in place

  // the nodes stand for these items
  ghost predicate StandFor(nodes: seq<Node>, items: seq<Item>)
    reads NodesOf(nodes)
  {
    |nodes| == |items| && forall i :: 0 <= i < |nodes| ==>
      nodes[i].Shape() && nodes[i].Repr <= NodesOf(nodes) && nodes[i].Current() == items[i]
  }

  lemma BranchesStandFor(node: Node)
    requires node.Shape()
    ensures StandFor(node.childs, node.Current().childs) && NodesOf(node.childs) <= node.Repr - {node}
    ensures StandFor([], [])
  {
    node.Unfold();
    hide Node.Shape, Node.Current;
    forall i | 0 <= i < |node.childs| ensures node.childs[i].Repr <= NodesOf(node.childs) {
      forall n | n in node.childs[i].Repr ensures n in NodesOf(node.childs) {}
    }
  }

  // the branches before, at and after one position share no node
  lemma BranchAt(node: Node, i: nat)
    requires node.Shape() && i < |node.childs|
    ensures NodesOf(node.childs[..i]) !! node.childs[i].Repr && node.childs[i].Repr !! NodesOf(node.childs[i + 1..])
    ensures NodesOf(node.childs[..i]) <= node.Repr && NodesOf(node.childs[i + 1..]) <= node.Repr
    ensures node.childs[i].Shape() && node.childs[i].height < node.height && node.childs[i].Repr <= node.Repr - {node}
    ensures node.childs[..i + 1] == node.childs[..i] + [node.childs[i]]
    ensures node.childs[i..] == [node.childs[i]] + node.childs[i + 1..]
  {
    node.Unfold();
    hide Node.Shape, Node.Current;
  }

  lemma StandForMore(nodes: seq<Node>, items: seq<Item>, node: Node, item: Item)
    requires StandFor(nodes, items) && node.Shape() && node.Current() == item
    ensures StandFor(nodes + [node], items + [item])
  {
    hide Node.Shape, Node.Current;
    var more := nodes + [node];
    forall i | 0 <= i < |more| ensures more[i].Repr <= NodesOf(more) {
      forall n | n in more[i].Repr ensures n in NodesOf(more) {}
    }
  }

  lemma StandForRest(nodes: seq<Node>, items: seq<Item>)
    requires StandFor(nodes, items) && nodes != []
    ensures StandFor(nodes[1..], items[1..]) && nodes[0].Current() == items[0]
  {
    hide Node.Shape, Node.Current;
    var rest := nodes[1..];
    forall i | 0 <= i < |rest| ensures rest[i].Repr <= NodesOf(rest) {
      forall n | n in rest[i].Repr ensures n in NodesOf(rest) {}
    }
  }

  lemma Rebuilt(node: Node, items: seq<Item>)
    requires node.Shape() && StandFor(node.childs, items)
    ensures node.Current() == Item(node.head, items)
  {
    node.Holding(items);
  }

  // the branches of a node, one after another
  method CheckChilds(w: World, node: Node, ghost items: seq<Item>) returns (ok: bool)
    requires node.Shape() && StandFor(node.childs, items)
    modifies node.Repr - {node}
    ensures ok <==> forall i :: 0 <= i < |items| ==> Checked(w, items[i])
    ensures ok ==> StandFor(node.childs, MergedItems(items))
    decreases node.height, 0
  {
    hide Node.Shape, Node.Current, NodesOf, StandFor, Checked, Merged;
    ghost var rest, done := items, [];
    BranchesStandFor(node);
    StandForLength(node.childs, items);
    for i := 0 to |node.childs|
      invariant i + |rest| == |node.childs| && rest == items[i..] && done == MergedItems(items[..i])
      invariant StandFor(node.childs[..i], done) && StandFor(node.childs[i..], rest)
      invariant forall j :: 0 <= j < i ==> Checked(w, items[j])
    {
      BranchAt(node, i);
      StandForRest(node.childs[i..], rest);
      ghost var nodes := node.childs[i + 1..];
      assert node.childs[i..][1..] == nodes;
      ok := CheckSakuraItem(w, node.childs[i]);
      if !ok { return; }
      StandForMore(node.childs[..i], done, node.childs[i], Merged(items[i]));
      MergedMore(items, i);
      rest, done := rest[1..], done + [Merged(items[i])];
    }
    ok := true;
    assert node.childs[..|node.childs|] == node.childs && items[..|items|] == items;
  }

  lemma StandForLength(nodes: seq<Node>, items: seq<Item>)
    requires StandFor(nodes, items)
    ensures |nodes| == |items| && nodes[0..] == nodes && nodes[..0] == [] && items[0..] == items && items[..0] == []
  {}

  lemma MergedMore(items: seq<Item>, i: nat)
    requires i < |items|
    ensures MergedItems(items[..i + 1]) == MergedItems(items[..i]) + [Merged(items[i])]
  {
    assert items[..i + 1][..i] == items[..i];
  }

  /** checkSakuraItem: accepts exactly the checked trees and leaves them merged */
  method CheckSakuraItem(w: World, node: Node) returns (ok: bool)
    requires node.Shape()
    modifies node.Repr
    ensures ok <==> Checked(w, old(node.Current()))
    ensures ok ==> node.Current() == Merged(old(node.Current()))
    decreases node.height, 1
  {
    hide Node.Shape, Node.Current, NodesOf, StandFor, BlossomChecked, MergedBlossoms, MergedItems;
    node.Unfold();
    ghost var item := node.Current();
    BranchesStandFor(node);
    match node.head {
      case Blossom(blossom) =>
        ok := CheckBlossomItem(w, blossom);
      case Group(_, _, _, _) =>
        ok := CheckGroup(w, node);
        Rebuilt(node, item.childs);
      case Subtree(_, _) =>
        ok := true;
      case _ =>
        ok := CheckChilds(w, node, item.childs);
        if ok { Rebuilt(node, MergedItems(item.childs)); }
    }
  }

  // the first i blossoms of the group are merged
  function HalfMerged(g: Head, i: nat): (r: seq<BlossomItem>)
    requires g.Group? && i <= |g.blossoms|
    ensures |r| == |g.blossoms|
  {
    MergedBlossoms(g, i) + g.blossoms[i..]
  }

  lemma MergeEnds(g: Head)
    requires g.Group?
    ensures HalfMerged(g, 0) == g.blossoms && HalfMerged(g, |g.blossoms|) == MergedBlossoms(g, |g.blossoms|)
  {}

  lemma MergeNext(g: Head, i: nat)
    requires g.Group? && i < |g.blossoms|
    ensures HalfMerged(g, i)[i] == g.blossoms[i]
    ensures HalfMerged(g, i)[i := InGroup(g.blossoms[i], g.id, g.groupType, g.values)] == HalfMerged(g, i + 1)
  {}

  method CheckGroup(w: World, node: Node) returns (ok: bool)
    requires node.head.Group?
    modifies node
    ensures var g := old(node.head);
      ok <==> forall i :: 0 <= i < |g.blossoms| ==>
        BlossomChecked(w, InGroup(g.blossoms[i], g.id, g.groupType, g.values))
    ensures ok ==> node.head == MergedHead(old(node.head))
  {
    hide BlossomChecked, HalfMerged, MergedBlossoms, Override;
    var g := node.head;
    MergeEnds(g);
    for i := 0 to |g.blossoms|
      invariant node.head == Group(g.id, g.groupType, g.values, HalfMerged(g, i))
      invariant forall j :: 0 <= j < i ==> BlossomChecked(w, InGroup(g.blossoms[j], g.id, g.groupType, g.values))
    {
      MergeNext(g, i);
      var b := node.head.blossoms[i];
      var merged := OverrideItems(b.values.values, g.values.values, OnlyNonExisting);
      b := BlossomItem(g.id, b.kind, g.groupType, b.values.(values := merged));
      node.head := Group(g.id, g.groupType, g.values, node.head.blossoms[i := b]);
      ok := CheckBlossomItem(w, b);
      if !ok { return; }
    }
    ok := true;
  }
}
