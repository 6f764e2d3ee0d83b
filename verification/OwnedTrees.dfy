// Syntax trees that own their value items and value maps: what copy() gives for all a node holds,
// down to the arguments of function calls.
module OwnedTrees {
  import opened Values
  import opened Filling
  import opened Items
  import opened Maps

  function MapAt(m: ValueItemMap, name: string): ValueItemMap {
    if name in m.childs then m.childs[name] else ValueItemMap(map[], map[])
  }

  function ItemAt(m: ValueItemMap, name: string): ValueItem {
    if name in m.values then m.values[name] else ValueItem(Str(""), Input, false, UndefinedType, [])
  }

  // the blossoms of a group are nodes below it
  function BlossomsOf(branches: seq<Item>): seq<BlossomItem> {
    if branches == [] then []
    else (if branches[0].head.Blossom? then [branches[0].head.blossom] else []) + BlossomsOf(branches[1..])
  }

  /** The tree a node stands for: its plain fields, the items and maps it owns by the names of
      its fields, and its branches. */
  function Assembled(plain: Head, m: ValueItemMap, branches: seq<Item>): Item {
    match plain
    case Blossom(b) => Item(Blossom(b.(values := MapAt(m, "values"))), branches)
    case Group(id, groupType, _, _) => Item(Group(id, groupType, MapAt(m, "values"), BlossomsOf(branches)), [])
    case Tree(_, _, _, _) => Item(plain.WithValues(MapAt(m, "values")), branches)
    case Subtree(_, _) => Item(plain.WithValues(MapAt(m, "values")), branches)
    case If(_, op, _) => Item(If(ItemAt(m, "leftSide"), op, ItemAt(m, "rightSide")), branches)
    case ForEach(tempVar, _, _, parallel) =>
      Item(ForEach(tempVar, MapAt(m, "iterateArray"), MapAt(m, "values"), parallel), branches)
    case For(tempVar, _, _, _, parallel) =>
      Item(For(tempVar, ItemAt(m, "start"), ItemAt(m, "end"), MapAt(m, "values"), parallel), branches)
    case _ => Item(plain, branches)
  }

  function MembersOf(g: Head): ValueItemMap {
    match g
    case Blossom(b) => ValueItemMap(map[], map["values" := b.values])
    case Group(_, _, values, _) => ValueItemMap(map[], map["values" := values])
    case Tree(_, _, _, values) => ValueItemMap(map[], map["values" := values])
    case Subtree(_, values) => ValueItemMap(map[], map["values" := values])
    case If(left, _, right) => ValueItemMap(map["leftSide" := left, "rightSide" := right], map[])
    case ForEach(_, iterate, values, _) => ValueItemMap(map[], map["iterateArray" := iterate, "values" := values])
    case For(_, start, end, values, _) =>
      ValueItemMap(map["start" := start, "end" := end], map["values" := values])
    case _ => ValueItemMap(map[], map[])
  }

  function BlossomNodes(blossoms: seq<BlossomItem>): seq<Item> {
    if blossoms == [] then [] else [Item(Blossom(blossoms[0]), [])] + BlossomNodes(blossoms[1..])
  }

  lemma {:induction false} SameBlossoms(blossoms: seq<BlossomItem>)
    ensures BlossomsOf(BlossomNodes(blossoms)) == blossoms
    decreases |blossoms|
  {
    if blossoms != [] {
      SameBlossoms(blossoms[1..]);
      assert BlossomNodes(blossoms)[1..] == BlossomNodes(blossoms[1..]);
    }
  }

  /** Every tree can be held that way; a group has no branches but its blossoms. */
  lemma AnyTree(item: Item)
    requires item.head.Group? ==> item.childs == []
    ensures item == Assembled(item.head, MembersOf(item.head),
                              if item.head.Group? then BlossomNodes(item.head.blossoms) else item.childs)
  {
    if item.head.Group? { SameBlossoms(item.head.blossoms); }
  }

  ghost function TreeNodes(trees: seq<TreeCell>): set<object> { set t, o | t in trees && o in t.Repr :: o }

  lemma AmongNodes(trees: seq<TreeCell>)
    ensures forall i :: 0 <= i < |trees| ==> trees[i].Repr <= TreeNodes(trees)
  {
    forall i, o | 0 <= i < |trees| && o in trees[i].Repr ensures o in TreeNodes(trees) { assert trees[i] in trees; }
  }

  lemma InMembers(members: MapCell)
    requires members.Valid()
    ensures members in members.Maps
  {
    members.Unfold();
  }

  lemma SameNames(a: MapCell, b: MapCell)
    requires a.Valid() && b.Valid() && a.Value() == b.Value()
    ensures a.childMaps.Keys == b.childMaps.Keys
  {
    hide MapCell.Valid, MapCell.Value, EntriesApart, EntryNodes, EntryValues, ChildsWithin, ChildValues;
    a.Unfold();
    b.Unfold();
  }

  class TreeCell {
    const plain: Head
    const members: MapCell
    const childs: seq<TreeCell>
    ghost const height: nat
    ghost const Repr: set<object>

    // a node, all it owns and everything below it, each of it once
    ghost predicate Valid()
      reads Repr
      decreases height
    {
      this in Repr && members in Repr && members.Maps + members.Cells <= Repr && this !in members.Cells &&
      members.Valid() &&
      (forall i :: 0 <= i < |childs| ==>
        childs[i].height < height && childs[i].Repr <= Repr && this !in childs[i].Repr &&
        members.Maps + members.Cells !! childs[i].Repr && childs[i].Valid()) &&
      (forall i, j :: 0 <= i < j < |childs| ==> childs[i].Repr !! childs[j].Repr)
    }

    ghost function Value(): Item
      requires Valid()
      reads Repr
      decreases height, |childs| + 1
    {
      Assembled(plain, members.Value(), Branches(|childs|))
    }

    ghost function Branches(n: nat): (items: seq<Item>)
      requires Valid() && n <= |childs|
      reads Repr
      ensures |items| == n && forall i :: 0 <= i < n ==> items[i] == childs[i].Value()
      decreases height, n
    {
      if n == 0 then [] else Branches(n - 1) + [childs[n - 1].Value()]
    }

    constructor (plain: Head, members: MapCell, childs: seq<TreeCell>, ghost height: nat)
      requires members.Valid() && members.Maps + members.Cells !! TreeNodes(childs)
      requires forall i :: 0 <= i < |childs| ==> childs[i].height < height && childs[i].Valid()
      requires forall i, j :: 0 <= i < j < |childs| ==> childs[i].Repr !! childs[j].Repr
      ensures this.plain == plain && this.members == members && this.childs == childs && this.height == height
      ensures Repr == {this} + members.Maps + members.Cells + TreeNodes(childs) && Valid()
    {
      hide MapCell.Valid, TreeNodes;
      this.plain, this.members, this.childs, this.height := plain, members, childs, height;
      this.Repr := {this} + members.Maps + members.Cells + TreeNodes(childs);
      new;
      InMembers(members);
      AmongNodes(childs);
    }

    lemma Unfold()
      requires Valid()
      ensures this in Repr && members in Repr && members.Maps + members.Cells <= Repr && this !in members.Cells
      ensures members.Valid() && forall i, j :: 0 <= i < j < |childs| ==> childs[i].Repr !! childs[j].Repr
      ensures Value() == Assembled(plain, members.Value(), Branches(|childs|))
      ensures forall i :: 0 <= i < |childs| ==>
        childs[i].Valid() && childs[i].height < height && childs[i].Repr <= Repr && this !in childs[i].Repr &&
        members.Maps + members.Cells !! childs[i].Repr && Branches(|childs|)[i] == childs[i].Value()
    {}

    lemma Rebuilt()
      requires this in Repr && members in Repr && members.Maps + members.Cells <= Repr && this !in members.Cells
      requires members.Valid() && forall i, j :: 0 <= i < j < |childs| ==> childs[i].Repr !! childs[j].Repr
      requires forall i :: 0 <= i < |childs| ==>
        childs[i].Valid() && childs[i].height < height && childs[i].Repr <= Repr && this !in childs[i].Repr &&
        members.Maps + members.Cells !! childs[i].Repr
      ensures Valid()
    {
      hide MapCell.Valid;
    }

    lemma Holding(m: ValueItemMap, items: seq<Item>)
      requires Valid() && members.Value() == m && |items| == |childs|
      requires forall i :: 0 <= i < |childs| ==> childs[i].Value() == items[i]
      ensures Value() == Assembled(plain, m, items)
    {
      assert Branches(|childs|) == items;
    }

    method CopyBranches() returns (copies: seq<TreeCell>, ghost used: set<object>)
      requires Valid()
      ensures |copies| == |childs| && TreeCopies(copies, Branches(|childs|), height)
      ensures used == TreeNodes(copies) && fresh(used)
      decreases height, 0
    {
      hide TreeCell.Valid, TreeCell.Value, TreeCell.Branches, MapCell.Valid, MapCell.Value, TreeNodes, TreeCopies;
      ghost var items := Branches(|childs|);
      Unfold();
      copies, used := [], {};
      NoTrees(items, height);
      for i := 0 to |childs|
        invariant |copies| == i && TreeCopies(copies, items, height) && used == TreeNodes(copies) && fresh(used)
      {
        var copy := childs[i].Copy();
        MoreTrees(copies, copy, items, height);
        copies, used := copies + [copy], used + copy.Repr;
      }
    }

    /** copy(): an equal tree, none of whose nodes, maps, items, calls and arguments is an old one. */
    method Copy() returns (tree: TreeCell)
      requires Valid()
      ensures tree.Valid() && fresh(tree.Repr) && tree.height == height && tree.Value() == Value()
      ensures tree.plain == plain && tree.members.Value() == members.Value() && |tree.childs| == |childs|
      ensures tree.members.childMaps.Keys == members.childMaps.Keys
      ensures tree.Branches(|childs|) == Branches(|childs|)
      decreases height, 1
    {
      hide TreeCell.Valid, TreeCell.Value, TreeCell.Branches, MapCell.Valid, MapCell.Value, TreeNodes;
      Unfold();
      ghost var items := Branches(|childs|);
      var copies, used := CopyBranches();
      var copy := members.Copy();
      tree := new TreeCell(plain, copy, copies, height);
      tree.Holding(members.Value(), items);
      SameNames(copy, members);
    }
  }

  // separate trees for the first of the items
  ghost predicate TreeCopies(trees: seq<TreeCell>, items: seq<Item>, height: nat)
    reads TreeNodes(trees)
  {
    |trees| <= |items| &&
    (forall j :: 0 <= j < |trees| ==> TreeCopy(trees[j], items[j], height, TreeNodes(trees))) &&
    (forall j, k :: 0 <= j < k < |trees| ==> trees[j].Repr !! trees[k].Repr)
  }

  ghost predicate TreeCopy(tree: TreeCell, item: Item, height: nat, within: set<object>)
    reads within
  {
    tree.Repr <= within && tree.Valid() && tree.height < height && tree.Value() == item
  }

  lemma NoTrees(items: seq<Item>, height: nat)
    ensures TreeCopies([], items, height) && TreeNodes([]) == {}
  {}

  lemma MoreTrees(trees: seq<TreeCell>, tree: TreeCell, items: seq<Item>, height: nat)
    requires TreeCopies(trees, items, height) && |trees| < |items|
    requires tree.Valid() && tree.height < height && tree.Value() == items[|trees|] && tree.Repr !! TreeNodes(trees)
    ensures TreeCopies(trees + [tree], items, height)
    ensures TreeNodes(trees + [tree]) == TreeNodes(trees) + tree.Repr
  {
    hide TreeCell.Valid, TreeCell.Value, TreeNodes;
    var more := trees + [tree];
    MoreTreeNodes(trees, tree);
    forall j | 0 <= j < |more| ensures more[j].Repr <= TreeNodes(more) {
      if j < |trees| { assert more[j] == trees[j]; }
    }
  }

  lemma MoreTreeNodes(trees: seq<TreeCell>, tree: TreeCell)
    ensures TreeNodes(trees + [tree]) == TreeNodes(trees) + tree.Repr
  {
    var more := trees + [tree];
    forall o ensures o in TreeNodes(more) <==> o in TreeNodes(trees) || o in tree.Repr {
      if o in tree.Repr { assert tree in more; }
      if o in TreeNodes(trees) { var t :| t in trees && o in t.Repr; assert t in more; }
    }
  }

  // ---------------------------------------------------------------- processing a copy

  // one of the maps a node owns is filled in place
  method FillMember(h: Host, members: MapCell, name: string, env: Env) returns (ok: bool)
    requires members.Valid() && name in members.childMaps
    modifies members.Cells
    ensures members.Valid() && members.Maps == old(members.Maps) && members.Cells == old(members.Cells)
    ensures var m := old(members.Value());
      name in m.childs && (ok <==> Fillable(h, env, m.childs[name])) &&
      (ok ==> members.Value() == m.(childs := m.childs[name := FillMap(h, env, m.childs[name])]))
  {
    hide MapCell.Valid, MapCell.Value, EntriesApart, EntryNodes, EntryValues, ChildsWithin, ChildValues;
    hide Fillable, FillMap;
    members.Unfold();
    ghost var maps, cells, m := members.Maps - {members}, members.Inner(), members.Value();
    ChildAt(members.childMaps, maps, cells, name);
    ok := FillChild(h, members.childMaps, name, maps, cells, m.childs, env);
    members.Rebuilt(maps, cells);
  }

  /** A copy of a tree is processed, the tree it was taken from keeps its value: neither the
      nodes nor the maps, items and calls below them are shared. */
  method FillInCopy(h: Host, original: TreeCell, name: string, env: Env) returns (ok: bool, tree: TreeCell)
    requires original.Valid() && name in original.members.childMaps
    ensures original.Valid() && original.Value() == old(original.Value())
    ensures tree.Valid() && fresh(tree.Repr)
    ensures var m := original.members.Value();
      name in m.childs && (ok <==> Fillable(h, env, m.childs[name])) &&
      (ok ==>
        var filled := m.(childs := m.childs[name := FillMap(h, env, m.childs[name])]);
        tree.Value() == Assembled(original.plain, filled, original.Branches(|original.childs|)))
  {
    hide TreeCell.Valid, TreeCell.Value, TreeCell.Branches, MapCell.Valid, MapCell.Value, Fillable, FillMap, Assembled;
    original.Unfold();
    tree := original.Copy();
    tree.Unfold();
    ghost var items := original.Branches(|original.childs|);
    ok := FillMember(h, tree.members, name, env);
    tree.Rebuilt();
    tree.Holding(tree.members.Value(), items);
  }
}
