// Value items and value maps as the program holds them: every value item owns its data item
// and its function calls, every map its entries and its child maps.
module Cells {
  import opened Values
  import opened Filling

  // the data item behind the pointer of a value item; deleting it and putting another one in
  // its place is an assignment here
  class DataBox {
    var data: Data

    constructor (data: Data)
      ensures this.data == data
    {
      this.data := data;
    }
  }

  ghost function CellNodes(cells: seq<ValueCell>): set<object> { set c, o | c in cells && o in c.Repr :: o }

  ghost function CallNodes(calls: seq<FunctionCell>): set<object> { set c, o | c in calls && o in c.Repr :: o }

  // ---------------------------------------------------------------- function calls

  class FunctionCell {
    const name: string
    const arguments: seq<ValueCell>
    ghost const height: nat
    ghost const Repr: set<object>

    // a call and everything it owns, each of it once; this does not depend on the heap
    ghost predicate Shape()
      decreases height
    {
      this in Repr &&
      (forall i :: 0 <= i < |arguments| ==>
        arguments[i].height < height && arguments[i].Repr <= Repr && this !in arguments[i].Repr &&
        arguments[i].Shape()) &&
      (forall i, j :: 0 <= i < j < |arguments| ==> arguments[i].Repr !! arguments[j].Repr)
    }

    ghost function Value(): FunctionItem
      requires Shape()
      reads Repr
      decreases height, |arguments| + 1
    {
      FunctionItem(name, Arguments(|arguments|))
    }

    ghost function Arguments(n: nat): (items: seq<ValueItem>)
      requires Shape() && n <= |arguments|
      reads Repr
      ensures |items| == n && forall i :: 0 <= i < n ==> items[i] == arguments[i].Value()
      decreases height, n
    {
      if n == 0 then [] else Arguments(n - 1) + [arguments[n - 1].Value()]
    }

    constructor (name: string, arguments: seq<ValueCell>, ghost height: nat)
      requires forall i :: 0 <= i < |arguments| ==> arguments[i].height < height && arguments[i].Shape()
      requires forall i, j :: 0 <= i < j < |arguments| ==> arguments[i].Repr !! arguments[j].Repr
      ensures this.name == name && this.arguments == arguments && this.height == height
      ensures Repr == {this} + CellNodes(arguments) && Shape()
    {
      this.name, this.arguments, this.height := name, arguments, height;
      this.Repr := {this} + CellNodes(arguments);
    }

    lemma Unfold()
      requires Shape()
      ensures this in Repr && Value().name == name && |Value().arguments| == |arguments|
      ensures forall i :: 0 <= i < |arguments| ==>
        arguments[i].Shape() && arguments[i].height < height && arguments[i].Repr <= Repr &&
        Value().arguments[i] == arguments[i].Value()
    {}

    lemma Holding(items: seq<ValueItem>)
      requires Shape() && |items| == |arguments|
      requires forall i :: 0 <= i < |arguments| ==> arguments[i].Value() == items[i]
      ensures Value() == FunctionItem(name, items)
    {
      assert Arguments(|arguments|) == items;
    }

    method CopyArguments() returns (copies: seq<ValueCell>, ghost used: set<object>)
      requires Shape()
      ensures |copies| == |arguments| && CellCopies(copies, Value().arguments, height)
      ensures used == CellNodes(copies) && fresh(used)
      decreases height, 0
    {
      hide FunctionCell.Shape, FunctionCell.Value, FunctionCell.Arguments, ValueCell.Shape, ValueCell.Value;
      hide CellNodes, CellCopies;
      ghost var items := Value().arguments;
      Unfold();
      copies, used := [], {};
      NoCells(items, height);
      for i := 0 to |arguments|
        invariant |copies| == i && CellCopies(copies, items, height) && used == CellNodes(copies) && fresh(used)
      {
        var copy := arguments[i].Copy();
        MoreCells(copies, copy, items, height);
        copies, used := copies + [copy], used + copy.Repr;
      }
    }

    /** the copy of a function item with its arguments */
    method Copy() returns (call: FunctionCell)
      requires Shape()
      ensures call.Shape() && fresh(call.Repr) && call.height == height && call.Value() == Value()
      decreases height, 1
    {
      hide FunctionCell.Shape, FunctionCell.Value, FunctionCell.Arguments, ValueCell.Shape, ValueCell.Value, CellNodes;
      Unfold();
      var copies, used := CopyArguments();
      call := new FunctionCell(name, copies, height);
      call.Holding(Value().arguments);
      Holding(Value().arguments);
    }
  }

  ghost predicate CellCopy(cell: ValueCell, item: ValueItem, height: nat, within: set<object>)
    reads within
  {
    cell.Repr <= within && cell.Shape() && cell.height < height && cell.Value() == item
  }

  // separate cells for the first of the items
  ghost predicate CellCopies(cells: seq<ValueCell>, items: seq<ValueItem>, height: nat)
    reads CellNodes(cells)
  {
    |cells| <= |items| &&
    (forall j :: 0 <= j < |cells| ==> CellCopy(cells[j], items[j], height, CellNodes(cells))) &&
    (forall j, k :: 0 <= j < k < |cells| ==> cells[j].Repr !! cells[k].Repr)
  }

  lemma NoCells(items: seq<ValueItem>, height: nat)
    ensures CellCopies([], items, height) && CellNodes([]) == {}
  {}

  lemma MoreCells(cells: seq<ValueCell>, cell: ValueCell, items: seq<ValueItem>, height: nat)
    requires CellCopies(cells, items, height) && |cells| < |items|
    requires cell.Shape() && cell.height < height && cell.Value() == items[|cells|] && cell.Repr !! CellNodes(cells)
    ensures CellCopies(cells + [cell], items, height)
    ensures CellNodes(cells + [cell]) == CellNodes(cells) + cell.Repr
  {
    hide ValueCell.Shape, ValueCell.Value, CellNodes;
    var more := cells + [cell];
    MoreCellNodes(cells, cell);
    forall j | 0 <= j < |more| ensures more[j].Repr <= CellNodes(more) {
      if j < |cells| { assert more[j] == cells[j]; }
    }
  }

  lemma MoreCellNodes(cells: seq<ValueCell>, cell: ValueCell)
    ensures CellNodes(cells + [cell]) == CellNodes(cells) + cell.Repr
  {
    var more := cells + [cell];
    forall o ensures o in CellNodes(more) <==> o in CellNodes(cells) || o in cell.Repr {
      if o in cell.Repr { assert cell in more; }
      if o in CellNodes(cells) { var c :| c in cells && o in c.Repr; assert c in more; }
    }
  }

  // ---------------------------------------------------------------- value items

  class ValueCell {
    const box: DataBox
    const kind: PairType
    const fieldType: FieldType
    const functions: seq<FunctionCell>
    var isIdentifier: bool
    ghost const height: nat
    ghost const Repr: set<object>

    ghost predicate Shape()
      decreases height
    {
      this in Repr && box in Repr &&
      (forall i :: 0 <= i < |functions| ==>
        functions[i].height < height && functions[i].Repr <= Repr && this !in functions[i].Repr &&
        box !in functions[i].Repr && functions[i].Shape()) &&
      (forall i, j :: 0 <= i < j < |functions| ==> functions[i].Repr !! functions[j].Repr)
    }

    ghost function Value(): ValueItem
      requires Shape()
      reads Repr
      decreases height, |functions| + 1
    {
      ValueItem(box.data, kind, isIdentifier, fieldType, Functions(|functions|))
    }

    ghost function Functions(n: nat): (items: seq<FunctionItem>)
      requires Shape() && n <= |functions|
      reads Repr
      ensures |items| == n && forall i :: 0 <= i < n ==> items[i] == functions[i].Value()
      decreases height, n
    {
      if n == 0 then [] else Functions(n - 1) + [functions[n - 1].Value()]
    }

    constructor (data: Data, kind: PairType, isIdentifier: bool, fieldType: FieldType,
                 functions: seq<FunctionCell>, ghost height: nat)
      requires forall i :: 0 <= i < |functions| ==> functions[i].height < height && functions[i].Shape()
      requires forall i, j :: 0 <= i < j < |functions| ==> functions[i].Repr !! functions[j].Repr
      ensures fresh(box) && box.data == data && this.kind == kind && this.isIdentifier == isIdentifier
      ensures this.fieldType == fieldType && this.functions == functions && this.height == height
      ensures Repr == {this, box} + CallNodes(functions) && Shape()
    {
      var newBox := new DataBox(data);
      this.box, this.kind, this.isIdentifier, this.fieldType := newBox, kind, isIdentifier, fieldType;
      this.functions, this.height := functions, height;
      this.Repr := {this, newBox} + CallNodes(functions);
    }

    lemma Unfold()
      requires Shape()
      ensures this in Repr && box in Repr
      ensures var v := Value();
        v.item == box.data && v.kind == kind && v.isIdentifier == isIdentifier && v.fieldType == fieldType &&
        |v.functions| == |functions|
      ensures forall i :: 0 <= i < |functions| ==>
        functions[i].Shape() && functions[i].height < height && functions[i].Repr <= Repr &&
        this !in functions[i].Repr && box !in functions[i].Repr && Value().functions[i] == functions[i].Value()
    {}

    lemma Holding(items: seq<FunctionItem>)
      requires Shape() && |items| == |functions|
      requires forall i :: 0 <= i < |functions| ==> functions[i].Value() == items[i]
      ensures Value() == ValueItem(box.data, kind, isIdentifier, fieldType, items)
    {
      assert Functions(|functions|) == items;
    }

    method CopyFunctions() returns (copies: seq<FunctionCell>, ghost used: set<object>)
      requires Shape()
      ensures |copies| == |functions| && CallCopies(copies, Value().functions, height)
      ensures used == CallNodes(copies) && fresh(used)
      decreases height, 0
    {
      hide FunctionCell.Shape, FunctionCell.Value, ValueCell.Shape, ValueCell.Value, ValueCell.Functions;
      hide CallNodes, CallCopies;
      ghost var items := Value().functions;
      Unfold();
      copies, used := [], {};
      NoCalls(items, height);
      for i := 0 to |functions|
        invariant |copies| == i && CallCopies(copies, items, height) && used == CallNodes(copies) && fresh(used)
      {
        var copy := functions[i].Copy();
        MoreCalls(copies, copy, items, height);
        copies, used := copies + [copy], used + copy.Repr;
      }
    }

    /** The copy-constructor: an equal value item with its own data item and its own calls. */
    method Copy() returns (cell: ValueCell)
      requires Shape()
      ensures cell.Shape() && fresh(cell.Repr) && cell.height == height && cell.Value() == Value()
      decreases height, 1
    {
      hide FunctionCell.Shape, FunctionCell.Value, ValueCell.Shape, ValueCell.Value, ValueCell.Functions, CallNodes;
      Unfold();
      var copies, used := CopyFunctions();
      cell := new ValueCell(box.data, kind, isIdentifier, fieldType, copies, height);
      cell.Holding(Value().functions);
      Holding(Value().functions);
    }
  }

  ghost predicate CallCopy(call: FunctionCell, item: FunctionItem, height: nat, within: set<object>)
    reads within
  {
    call.Repr <= within && call.Shape() && call.height < height && call.Value() == item
  }

  ghost predicate CallCopies(calls: seq<FunctionCell>, items: seq<FunctionItem>, height: nat)
    reads CallNodes(calls)
  {
    |calls| <= |items| &&
    (forall j :: 0 <= j < |calls| ==> CallCopy(calls[j], items[j], height, CallNodes(calls))) &&
    (forall j, k :: 0 <= j < k < |calls| ==> calls[j].Repr !! calls[k].Repr)
  }

  lemma NoCalls(items: seq<FunctionItem>, height: nat)
    ensures CallCopies([], items, height) && CallNodes([]) == {}
  {}

  lemma MoreCalls(calls: seq<FunctionCell>, call: FunctionCell, items: seq<FunctionItem>, height: nat)
    requires CallCopies(calls, items, height) && |calls| < |items|
    requires call.Shape() && call.height < height && call.Value() == items[|calls|] && call.Repr !! CallNodes(calls)
    ensures CallCopies(calls + [call], items, height)
    ensures CallNodes(calls + [call]) == CallNodes(calls) + call.Repr
  {
    hide FunctionCell.Shape, FunctionCell.Value, CallNodes;
    var more := calls + [call];
    MoreCallNodes(calls, call);
    forall j | 0 <= j < |more| ensures more[j].Repr <= CallNodes(more) {
      if j < |calls| { assert more[j] == calls[j]; }
    }
  }

  lemma MoreCallNodes(calls: seq<FunctionCell>, call: FunctionCell)
    ensures CallNodes(calls + [call]) == CallNodes(calls) + call.Repr
  {
    var more := calls + [call];
    forall o ensures o in CallNodes(more) <==> o in CallNodes(calls) || o in call.Repr {
      if o in call.Repr { assert call in more; }
      if o in CallNodes(calls) { var c :| c in calls && o in c.Repr; assert c in more; }
    }
  }

  // ---------------------------------------------------------------- filling in place

  /** The arguments of a call are filled as copies; the call keeps its own. */
  method FillArgumentCells(h: Host, call: FunctionCell, env: Env) returns (ok: bool, args: seq<Data>)
    requires call.Shape()
    ensures ok <==> FillArguments(h, env, call.Value(), |call.arguments|).Some?
    ensures ok ==> args == FillArguments(h, env, call.Value(), |call.arguments|).value
    decreases call.height, 3
  {
    hide FunctionCell.Shape, FunctionCell.Value, ValueCell.Shape, ValueCell.Value, FillItem, FillArguments;
    call.Unfold();
    ghost var f := call.Value();
    args := [];
    NoArguments(h, env, f);
    for n := 0 to |call.arguments|
      invariant FillArguments(h, env, f, n) == Some(args)
    {
      var arg := call.arguments[n].Copy();
      arg.Unfold();
      var one := FillValueCell(h, arg, env);
      NextArgument(h, env, f, n);
      if !one {
        ArgumentFails(h, env, f, n, |call.arguments|);
        return false, [];
      }
      arg.Unfold();
      args := args + [arg.box.data];
    }
    ok := true;
  }

  lemma NoArguments(h: Host, env: Env, f: FunctionItem)
    ensures FillArguments(h, env, f, 0) == Some([])
  {}

  lemma NextArgument(h: Host, env: Env, f: FunctionItem, n: nat)
    requires n < |f.arguments|
    ensures var front, last := FillArguments(h, env, f, n), FillItem(h, env, f.arguments[n]);
      FillArguments(h, env, f, n + 1) ==
        if front.Some? && last.Some? then Some(front.value + [last.value.item]) else None
  {}

  /** getProcessedItem: each call replaces the data item the value item owns */
  method GetProcessedCell(h: Host, cell: ValueCell, env: Env) returns (ok: bool)
    requires cell.Shape()
    modifies cell.box
    ensures var v := old(cell.Value());
      var r := Chain(h, env, v.functions, |v.functions|, v.item);
      (ok <==> r.Some?) && (ok ==> cell.Value() == v.(item := r.value))
    decreases cell.height, 1
  {
    hide FunctionCell.Shape, FunctionCell.Value, ValueCell.Shape, ValueCell.Value, FillArguments, Apply, Chain;
    cell.Unfold();
    ghost var v := cell.Value();
    var fs := cell.functions;
    ChainStart(h, env, v.functions, v.item);
    for n := 0 to |fs|
      invariant Chain(h, env, v.functions, n, v.item) == Some(cell.box.data)
      invariant forall i :: 0 <= i < |fs| ==> fs[i].Value() == v.functions[i]
    {
      var call := fs[n];
      call.Unfold();
      var tempItem := None;
      if Arity(call.name) == Some(|call.arguments|) {
        var filled, args := FillArgumentCells(h, call, env);
        if filled { tempItem := Apply(h, call.name, cell.box.data, args); }
      }
      ChainNext(h, env, v.functions, n, v.item);
      if tempItem.None? {
        ChainFails(h, env, v.functions, n + 1, |fs|, v.item);
        return false;
      }
      cell.box.data := tempItem.value;
    }
    cell.Holding(v.functions);
    ok := true;
  }

  lemma ChainStart(h: Host, env: Env, fs: seq<FunctionItem>, item: Data)
    ensures Chain(h, env, fs, 0, item) == Some(item)
  {}

  lemma ChainNext(h: Host, env: Env, fs: seq<FunctionItem>, n: nat, item: Data)
    requires n < |fs|
    ensures var before, f := Chain(h, env, fs, n, item), fs[n];
      Chain(h, env, fs, n + 1, item) ==
        if before.None? || Arity(f.name) != Some(|f.arguments|) then None
        else
          var args := FillArguments(h, env, f, |f.arguments|);
          if args.Some? then Apply(h, f.name, before.value, args.value) else None
  {
    hide FillArguments, Apply;
  }

  /** fillValueItem in place: it changes the value item and its data item, nothing else. */
  method FillValueCell(h: Host, cell: ValueCell, env: Env) returns (ok: bool)
    requires cell.Shape()
    modifies cell, cell.box
    ensures ok <==> FillItem(h, env, old(cell.Value())).Some?
    ensures ok ==> cell.Value() == FillItem(h, env, old(cell.Value())).value
    decreases cell.height, 2
  {
    hide FunctionCell.Shape, FunctionCell.Value, ValueCell.Shape, ValueCell.Value, Chain;
    cell.Unfold();
    ghost var v := cell.Value();
    if !cell.isIdentifier && !cell.kind.Output? && cell.box.data.Str? {
      var converted := h.jinja(cell.box.data.s, env);
      if converted.None? { return false; }
      cell.box.data := Str(converted.value);
      cell.Holding(v.functions);
      ok := true;
    } else if cell.isIdentifier && !cell.kind.Output? {
      var key := h.ToString(cell.box.data);
      if key !in env { return false; }
      cell.box.data := env[key];
      cell.isIdentifier := false;
      cell.Holding(v.functions);
      ok := GetProcessedCell(h, cell, env);
    } else if !cell.kind.Output? {
      ok := GetProcessedCell(h, cell, env);
    } else {
      ok := true;
    }
  }
}
