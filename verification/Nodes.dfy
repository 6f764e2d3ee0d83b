// Syntax trees as the program holds them: linked nodes whose values are replaced while they
// are processed. Every node owns its branches.
module Nodes {
  import opened Items

  ghost function NodesOf(nodes: seq<Node>): set<Node> { set t, n | t in nodes && n in t.Repr :: n }

  ghost function NodesIn(trees: map<string, Node>): set<Node> { set k, n | k in trees && n in trees[k].Repr :: n }

  class Node {
    var head: Head
    const childs: seq<Node>
    ghost const height: nat
    ghost const Repr: set<Node>

    // A node and everything below it, each of them once. Branches are never exchanged, so
    // this does not depend on the heap.
    ghost predicate Shape()
      decreases height
    {
      this in Repr &&
      (forall i :: 0 <= i < |childs| ==>
        childs[i].height < height && childs[i].Repr <= Repr && this !in childs[i].Repr && childs[i].Shape()) &&
      (forall i, j :: 0 <= i < j < |childs| ==> childs[i].Repr !! childs[j].Repr)
    }

    /** The syntax tree the nodes stand for at the moment. */
    ghost function Current(): Item
      requires Shape()
      reads Repr
      decreases height, |childs| + 1
    {
      Item(head, Branches(|childs|))
    }

    ghost function Branches(n: nat): (items: seq<Item>)
      requires Shape() && n <= |childs|
      reads Repr
      ensures |items| == n
      ensures forall i :: 0 <= i < n ==> items[i] == childs[i].Current()
      decreases height, n
    {
      if n == 0 then [] else Branches(n - 1) + [childs[n - 1].Current()]
    }

    constructor (head: Head, childs: seq<Node>, ghost height: nat)
      requires forall i :: 0 <= i < |childs| ==> childs[i].height < height && childs[i].Shape()
      requires forall i, j :: 0 <= i < j < |childs| ==> childs[i].Repr !! childs[j].Repr
      ensures this.head == head && this.childs == childs && this.height == height
      ensures Repr == {this} + NodesOf(childs)
      ensures Shape()
    {
      this.head, this.childs, this.height := head, childs, height;
      this.Repr := {this} + NodesOf(childs);
    }

    method CopyBranches() returns (copies: seq<Node>)
      requires Shape()
      ensures |copies| == |childs| && Copies(copies, Branches(|childs|), height) && fresh(NodesOf(copies))
      decreases height, 0
    {
      hide Node.Shape, Node.Current, Node.Branches, NodesOf, Copies;
      ghost var items := Branches(|childs|);
      Unfold();
      copies := [];
      NoCopies(items, height);
      ghost var used: set<Node> := {};
      for i := 0 to |childs|
        invariant |copies| == i && Copies(copies, items, height) && used == NodesOf(copies) && fresh(used)
      {
        var copy := childs[i].Copy();
        MoreCopies(copies, copy, items, height);
        copies, used := copies + [copy], used + copy.Repr;
      }
    }

    /** copy(): an equal tree on new nodes only. */
    method Copy() returns (node: Node)
      requires Shape()
      ensures node.Shape() && fresh(node.Repr) && node.height == height
      ensures node.Current() == Current()
      decreases height, 1
    {
      hide Node.Shape, Node.Current, Node.Branches, NodesOf;
      var copies := CopyBranches();
      node := new Node(head, copies, height);
      Holding(Branches(|childs|));
      node.Holding(Branches(|childs|));
    }

    lemma Unfold()
      requires Shape()
      ensures this in Repr && Current().head == head && |Current().childs| == |childs|
      ensures forall i :: 0 <= i < |childs| ==>
        childs[i].Shape() && childs[i].height < height && childs[i].Repr <= Repr && this !in childs[i].Repr &&
        Current().childs[i] == childs[i].Current()
      ensures forall i, j :: 0 <= i < j < |childs| ==> childs[i].Repr !! childs[j].Repr
    {}

    lemma Holding(items: seq<Item>)
      requires Shape() && |items| == |childs|
      requires forall i :: 0 <= i < |childs| ==> childs[i].Current() == items[i]
      ensures Current() == Item(head, items)
    {
      assert Branches(|childs|) == items;
    }
  }

  // separate trees for the first of the items
  ghost predicate Copies(nodes: seq<Node>, items: seq<Item>, height: nat)
    reads NodesOf(nodes)
  {
    |nodes| <= |items| &&
    (forall j :: 0 <= j < |nodes| ==>
      nodes[j].Shape() && nodes[j].height < height && nodes[j].Repr <= NodesOf(nodes)) &&
    (forall j :: 0 <= j < |nodes| ==> nodes[j].Current() == items[j]) &&
    (forall j, k :: 0 <= j < k < |nodes| ==> nodes[j].Repr !! nodes[k].Repr)
  }

  lemma NoCopies(items: seq<Item>, height: nat)
    ensures Copies([], items, height) && NodesOf([]) == {}
  {}

  lemma MoreCopies(nodes: seq<Node>, node: Node, items: seq<Item>, height: nat)
    requires Copies(nodes, items, height) && |nodes| < |items|
    requires node.Shape() && node.height < height && node.Current() == items[|nodes|] && node.Repr !! NodesOf(nodes)
    ensures Copies(nodes + [node], items, height)
    ensures NodesOf(nodes + [node]) == NodesOf(nodes) + node.Repr
  {
    hide Node.Shape, Node.Current, Node.Branches, NodesOf;
    var more := nodes + [node];
    NodesOfMore(nodes, node);
    forall j | 0 <= j < |more| ensures more[j].Repr <= NodesOf(more) {
      if j < |nodes| { assert more[j] == nodes[j]; }
    }
  }

  lemma NodesOfMore(nodes: seq<Node>, node: Node)
    ensures NodesOf(nodes + [node]) == NodesOf(nodes) + node.Repr
  {
    var more := nodes + [node];
    forall n ensures n in NodesOf(more) <==> n in NodesOf(nodes) || n in node.Repr {
      if n in node.Repr { assert node in more; }
      if n in NodesOf(nodes) { var t :| t in nodes && n in t.Repr; assert t in more; }
    }
  }

  /** The registered trees and resources. */
  class Garden {
    const trees: map<string, Node>
    const resources: map<string, Node>
    ghost const Repr: set<Node>

    ghost predicate Holds(w: World)
      reads Repr
    {
      trees.Keys == w.trees.Keys && resources.Keys == w.resources.Keys &&
      (forall k :: k in trees ==> trees[k].Shape() && trees[k].Repr <= Repr && trees[k].Current() == w.trees[k]) &&
      (forall k :: k in resources ==>
        resources[k].Shape() && resources[k].Repr <= Repr && resources[k].Current() == w.resources[k])
    }

    constructor (trees: map<string, Node>, resources: map<string, Node>)
      ensures this.trees == trees && this.resources == resources
      ensures Repr == NodesIn(trees) + NodesIn(resources)
    {
      this.trees, this.resources := trees, resources;
      this.Repr := NodesIn(trees) + NodesIn(resources);
    }

    /** getTree: a copy, the registered tree stays as it is */
    method GetTree(w: World, id: string) returns (tree: Node?)
      requires Holds(w)
      ensures tree == null <==> w.GetTree(id).None?
      ensures tree != null ==> tree.Shape() && fresh(tree.Repr) && tree.Current() == w.GetTree(id).value
    {
      var key := if id == "" then "root.sakura" else id;
      if key !in trees { return null; }
      tree := trees[key].Copy();
    }

    method GetRessource(w: World, id: string) returns (tree: Node?)
      requires Holds(w)
      ensures tree == null <==> id !in w.resources
      ensures tree != null ==> tree.Shape() && fresh(tree.Repr) && tree.Current() == w.resources[id]
    {
      if id !in resources { return null; }
      tree := resources[id].Copy();
    }
  }
}
