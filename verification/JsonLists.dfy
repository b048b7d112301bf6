/** Merging a list of values in place, and copying values. */
module JsonLists {
  import opened Json
  import opened JsonHeap

  // ---------------------------------------------------------------------------------------
  // Lists
  // ---------------------------------------------------------------------------------------

  ghost function Snapshots(trees: seq<Tree>): seq<Value> {
    seq(|trees|, i requires 0 <= i < |trees| => Snapshot(trees[i]))
  }

  ghost function Cells(trees: seq<Tree>): set<object> {
    if trees == [] then {} else Footprint(trees[0]) + Cells(trees[1..])
  }

  ghost predicate Apart(trees: seq<Tree>) {
    trees == [] || (Footprint(trees[0]) !! Cells(trees[1..]) && Apart(trees[1..]))
  }

  lemma {:induction false} CellsInside(trees: seq<Tree>, i: nat)
    requires i < |trees|
    ensures Footprint(trees[i]) <= Cells(trees)
  {
    if i > 0 {
      CellsInside(trees[1..], i - 1);
    }
  }

  lemma {:induction false} ApartPairs(trees: seq<Tree>, i: nat)
    requires Apart(trees) && i < |trees|
    ensures Footprint(trees[i]) !! Cells(trees[i + 1..])
    ensures forall j: nat :: j < i ==> Footprint(trees[j]) !! Footprint(trees[i])
  {
    if i > 0 {
      ApartPairs(trees[1..], i - 1);
      assert trees[1..][i..] == trees[i + 1..];
      CellsInside(trees[1..], i - 1);
    }
  }

  lemma {:induction false} CellsConcat(a: seq<Tree>, b: seq<Tree>)
    ensures Cells(a + b) == Cells(a) + Cells(b)
    ensures Apart(a + b) ==> Cells(a) !! Cells(b)
  {
    if a == [] {
      assert a + b == b;
    } else {
      assert (a + b)[1..] == a[1..] + b;
      CellsConcat(a[1..], b);
    }
  }

  /** Splits the arguments into those before i, argument i, and those after it. */
  lemma CellsSplit(trees: seq<Tree>, i: nat)
    requires Apart(trees) && i < |trees|
    ensures Cells(trees) == Cells(trees[..i]) + Footprint(trees[i]) + Cells(trees[i + 1..])
    ensures Cells(trees[i..]) == Footprint(trees[i]) + Cells(trees[i + 1..])
    ensures Cells(trees[..i]) !! Footprint(trees[i]) && Footprint(trees[i]) !! Cells(trees[i + 1..])
    ensures Cells(trees[..i]) !! Cells(trees[i + 1..])
    ensures forall j: nat :: j < i ==> Footprint(trees[j]) <= Cells(trees[..i])
  {
    assert trees == trees[..i] + trees[i..] && trees[i..][1..] == trees[i + 1..];
    CellsConcat(trees[..i], trees[i..]);
    ApartPairs(trees, i);
    forall j: nat | j < i ensures Footprint(trees[j]) <= Cells(trees[..i]) {
      CellsInside(trees[..i], j);
    }
  }

  /** The first n arguments show their trees, whose cells are among the given ones. */
  ghost predicate FrontShown(objs: seq<HeapValue>, trees: seq<Tree>, n: nat, cells: set<object>)
    requires n <= |trees| == |objs|
    reads cells
  {
    forall j: nat :: j < n ==>
      Root(trees[j]) == objs[j] && Covers(trees[j]) && Footprint(trees[j]) <= cells && Holds(trees[j])
  }

  lemma FrontShrinks(objs: seq<HeapValue>, trees: seq<Tree>, i: nat)
    requires i < |trees| == |objs| && Apart(trees)
    requires FrontShown(objs, trees, i + 1, Cells(trees[..i + 1]))
    ensures FrontShown(objs, trees, i, Cells(trees[..i]))
    ensures Shows(trees[i], objs[i])
  {
    CellsSplit(trees, i);
    assert trees[..i + 1] == trees[..i] + [trees[i]];
    CellsConcat(trees[..i], [trees[i]]);
  }

  /**
   Before round i: the arguments before i are as they were, and t, which may have some new cells, is the merge
   of the others.
   */
  ghost predicate Folded(objs: array<HeapValue>, trees: seq<Tree>, i: nat, t: Tree, more: set<object>)
    requires i < |trees| == objs.Length
    reads objs, Cells(trees[..i]), Footprint(t)
  {
    && FrontShown(objs[..], trees, i, Cells(trees[..i]))
    && Shows(t, objs[i]) && FoldedTree(trees, i, t, more)
  }

  ghost predicate FoldedTree(trees: seq<Tree>, i: nat, t: Tree, more: set<object>)
    requires i < |trees|
  {
    && Footprint(t) <= Cells(trees[i..]) + more && Full(t)
    && Snapshot(t) == MultiMerge(Snapshots(trees[i..])) && !MultiPanics(Snapshots(trees[i..]))
  }

  /** Every argument that is merged into has its outer cells at one place each. */
  ghost predicate Writable(trees: seq<Tree>) {
    && (forall j: nat :: j < |trees| ==> Full(trees[j]))
    && (forall j: nat :: j < |trees| - 1 ==> Unshared(trees[j]))
  }

  /** One round of multiMerge's loop. */
  method MergePair(objs: array<HeapValue>, i: nat, ghost trees: seq<Tree>, ghost t: Tree, ghost more: set<object>,
                   ghost cells: set<object>)
    returns (ok: bool, ghost t': Tree, ghost more': set<object>)
    requires 1 <= i < |trees| == objs.Length && Apart(trees) && Writable(trees)
    requires cells == Cells(trees) + {objs} && objs !in Cells(trees)
    requires Folded(objs, trees, i, t, more) && more !! cells
    modifies objs, Footprint(trees[i - 1])
    ensures ok <==> !MultiPanics(Snapshots(trees[i - 1..]))
    ensures more <= more' && fresh(more' - more) && more' !! cells
    ensures ok ==> Folded(objs, trees, i - 1, t', more')
  {
    MergeStep(trees, i);
    FrontShrinks(objs[..], trees, i - 1);
    CellsSplit(trees, i - 1);
    OuterInFootprint(trees[i - 1]);
    ok, t' := MergeTwo(objs, i, trees, trees[i - 1], t, Cells(trees[..i - 1]));
    more' := more + if ok then Footprint(t') - Footprint(trees[i - 1]) - Footprint(t) else {};
  }

  method MergeTwo(objs: array<HeapValue>, i: nat, ghost trees: seq<Tree>, ghost d: Tree, ghost t: Tree,
                  ghost front: set<object>)
    returns (ok: bool, ghost t': Tree)
    requires 1 <= i < objs.Length == |trees| && d == trees[i - 1]
    requires Shows(d, objs[i - 1]) && Unshared(d) && Full(d) && Shows(t, objs[i]) && Full(t)
    requires Outer(d) !! Footprint(t)
    requires FrontShown(objs[..], trees, i - 1, front) && front !! Outer(d)
    requires objs !in Footprint(d) + Footprint(t) + front && Outer(d) <= Footprint(d)
    modifies objs, Outer(d)
    ensures ok <==> !MergePanics(Snapshot(d), Snapshot(t))
    ensures ok ==>
              && FrontShown(objs[..], trees, i - 1, front) && Shows(t', objs[i - 1]) && Full(t')
              && Snapshot(t') == Merge(Snapshot(d), Snapshot(t)) && fresh(Footprint(t') - Footprint(d) - Footprint(t))
  {
    var v;
    FullIsOpened(d, t);
    ok, v, t' := MergeInPlace(objs[i - 1], objs[i], d, t);
    if ok {
      MergesToFull(d, t, t');
      StoreArgument(objs, i - 1, v, trees, t', front);
    }
  }

  method StoreArgument(objs: array<HeapValue>, i: nat, v: HeapValue, ghost trees: seq<Tree>, ghost t: Tree,
                       ghost front: set<object>)
    requires i < objs.Length == |trees| && FrontShown(objs[..], trees, i, front) && Shows(t, v)
    requires objs !in front + Footprint(t)
    modifies objs
    ensures FrontShown(objs[..], trees, i, front) && objs[i] == v && Shows(t, v)
  {
    ghost var before := objs[..];
    objs[i] := v;
    assert FrontShown(before, trees, i, front);
  }

  /** multiMerge's loop. */
  method MergeDown(objs: array<HeapValue>, ghost trees: seq<Tree>)
    returns (ok: bool, ghost t: Tree, ghost more: set<object>)
    requires 0 < |trees| == objs.Length && Apart(trees) && Writable(trees) && objs !in Cells(trees)
    requires Folded(objs, trees, |trees| - 1, trees[|trees| - 1], {})
    modifies objs, Cells(trees[..|trees| - 1])
    ensures ok <==> !MultiPanics(Snapshots(trees))
    ensures ok ==> Folded(objs, trees, 0, t, more) && fresh(more)
  {
    var i := objs.Length - 1;
    t, more := trees[i], {};
    ghost var cells := Cells(trees) + {objs};
    while i >= 1
      invariant 0 <= i < objs.Length
      invariant Folded(objs, trees, i, t, more) && fresh(more) && more !! cells
    {
      FrontInside(trees, i - 1);
      ok, t, more := MergePair(objs, i, trees, t, more, cells);
      if !ok {
        PanicsSpread(trees, i - 1);
        return false, t, more;
      }
      i := i - 1;
    }
    assert trees[0..] == trees;
    ok := true;
  }

  /**
   multiMerge: overwrites the slice and merges in place from right to left.  The outcome is the right
   fold of the arguments' snapshots, and the cells of the last argument, which may be shared, are not
   touched.
   */
  method MultiMergeInPlace(objs: array<HeapValue>, ghost trees: seq<Tree>)
    returns (ok: bool, r: HeapValue, ghost t: Tree)
    requires |trees| == objs.Length && Apart(trees) && Writable(trees) && objs !in Cells(trees)
    requires forall i: nat :: i < |trees| ==> Shows(trees[i], objs[i])
    modifies objs, if trees == [] then {} else Cells(trees[..|trees| - 1])
    ensures ok <==> !MultiPanics(Snapshots(trees))
    ensures ok ==>
              && Shows(t, r) && Full(t) && Snapshot(t) == MultiMerge(Snapshots(trees))
              && fresh(Footprint(t) - Cells(trees))
  {
    if objs.Length == 0 {
      return true, HLeaf(Null), Leaf(Null);
    }
    AllShown(objs[..], trees, objs.Length - 1);
    FrontShrinks(objs[..], trees, objs.Length - 1);
    LastTree(trees);
    ghost var more: set<object>;
    ok, t, more := MergeDown(objs, trees);
    assert trees[0..] == trees;
    r := objs[0];
  }

  lemma {:induction false} PanicsSpread(trees: seq<Tree>, i: nat)
    requires i < |trees| && MultiPanics(Snapshots(trees[i..]))
    ensures MultiPanics(Snapshots(trees))
    decreases i
  {
    if i == 0 {
      assert trees[0..] == trees;
    } else {
      MergeStep(trees, i);
      PanicsSpread(trees, i - 1);
    }
  }

  lemma LastTree(trees: seq<Tree>)
    requires trees != [] && Writable(trees)
    ensures FoldedTree(trees, |trees| - 1, trees[|trees| - 1], {})
  {
    var i := |trees| - 1;
    assert trees[i..] == [trees[i]] && Snapshots([trees[i]]) == [Snapshot(trees[i])];
  }

  lemma AllShown(objs: seq<HeapValue>, trees: seq<Tree>, i: nat)
    requires |trees| == |objs| == i + 1 && forall j: nat :: j < |trees| ==> Shows(trees[j], objs[j])
    ensures FrontShown(objs, trees, i + 1, Cells(trees[..i + 1]))
  {
    assert trees[..i + 1] == trees;
    forall j: nat | j < |trees| ensures Footprint(trees[j]) <= Cells(trees) {
      CellsInside(trees, j);
    }
  }

  lemma FrontInside(trees: seq<Tree>, i: nat)
    requires i < |trees|
    ensures Footprint(trees[i]) <= Cells(trees[..|trees| - 1]) || i == |trees| - 1
    ensures Cells(trees[..|trees| - 1]) <= Cells(trees)
  {
    var n := |trees| - 1;
    if i < n {
      CellsInside(trees[..n], i);
    }
    CellsConcat(trees[..n], trees[n..]);
    assert trees == trees[..n] + trees[n..];
  }

  lemma MergeStep(trees: seq<Tree>, i: nat)
    requires 1 <= i < |trees|
    ensures Cells(trees[i - 1..]) == Footprint(trees[i - 1]) + Cells(trees[i..])
    ensures MultiMerge(Snapshots(trees[i - 1..])) == Merge(Snapshot(trees[i - 1]), MultiMerge(Snapshots(trees[i..])))
    ensures MultiPanics(Snapshots(trees[i - 1..])) <==>
              || MultiPanics(Snapshots(trees[i..]))
              || MergePanics(Snapshot(trees[i - 1]), MultiMerge(Snapshots(trees[i..])))
  {
    assert trees[i - 1..][1..] == trees[i..];
    assert Snapshots(trees[i - 1..])[1..] == Snapshots(trees[i..]);
  }

  // ---------------------------------------------------------------------------------------
  // Copies
  // ---------------------------------------------------------------------------------------

  /** c shows what t shows; its outer cells are at one place each, and its other cells are below handlers of t. */
  ghost predicate Copies(c: Tree, t: Tree) {
    Snapshot(c) == Snapshot(t) && Full(c) && Unshared(c) && Footprint(c) <= Outer(c) + Footprint(t)
  }

  /**
   DeepCopy: also of a value in which cells are shared.  The copy consists of new cells, except for what a
   handler refers to, which is not copied.
   */
  method DeepCopy(v: HeapValue, ghost t: Tree) returns (r: HeapValue, ghost c: Tree)
    requires Shows(t, v) && Full(t)
    ensures Shows(c, r) && Copies(c, t) && fresh(Outer(c))
    decreases t, 1
  {
    match v {
      case HObj(obj) =>
        var cell: ObjCell;
        cell, c := CopyObj(obj, t);
        r := HObj(cell);
      case HArr(arr) =>
        var cell: ArrCell;
        cell, c := CopyArr(arr, t);
        r := HArr(cell);
      case _ =>
        r, c := v, t;
    }
  }

  ghost predicate CopyOf(c: Tree, t: Tree, outer: set<object>, cells: set<object>) {
    Covers(c) && Copies(c, t) && Outer(c) <= outer && Footprint(c) <= outer + cells
  }

  /** The copies of the fields copied so far, with the outer cells of all of them. */
  ghost predicate FieldsCopied(kids: map<string, Tree>, t: Tree, outer: set<object>)
    requires t.ObjNode?
  {
    && kids.Keys <= t.kids.Keys
    && (forall k :: k in kids ==> CopyOf(kids[k], t.kids[k], outer, t.cells))
    && (forall k, k' :: k in kids && k' in kids && k != k' ==> Outer(kids[k]) !! Footprint(kids[k']))
  }

  ghost predicate FieldsShown(copied: map<string, HeapValue>, kids: map<string, Tree>, cells: set<object>)
    reads cells
  {
    && copied.Keys == kids.Keys
    && forall k :: k in kids ==>
         Covers(kids[k]) && Footprint(kids[k]) <= cells && Root(kids[k]) == copied[k] && Holds(kids[k])
  }

  lemma FieldCopied(kids: map<string, Tree>, t: Tree, outer: set<object>, k: string, kid: Tree)
    requires t.ObjNode? && Covers(t) && FieldsCopied(kids, t, outer)
    requires k in t.kids && k !in kids && Covers(kid) && Copies(kid, t.kids[k])
    requires outer !! t.cells && Outer(kid) !! outer + t.cells
    ensures FieldsCopied(kids[k := kid], t, outer + Outer(kid))
  {
    var all := outer + Outer(kid);
    assert CopyOf(kid, t.kids[k], all, t.cells);
    forall j | j in kids
      ensures CopyOf(kids[j], t.kids[j], all, t.cells)
      ensures Outer(kids[j]) !! Footprint(kid) && Outer(kid) !! Footprint(kids[j])
    {
      assert CopyOf(kids[j], t.kids[j], outer, t.cells);
    }
  }

  lemma OneMoreKey(kids: map<string, Tree>, k: string, kid: Tree)
    ensures kids[k := kid].Keys == kids.Keys + {k}
  {
  }

  lemma FieldShown(copied: map<string, HeapValue>, kids: map<string, Tree>, cells: set<object>,
                   k: string, v: HeapValue, kid: Tree, more: set<object>)
    requires FieldsShown(copied, kids, cells) && cells <= more && Shows(kid, v) && Footprint(kid) <= more
    ensures FieldsShown(copied[k := v], kids[k := kid], more)
  {
  }

  method CopyField(obj: ObjCell, k: string, copied: map<string, HeapValue>, ghost kids: map<string, Tree>,
                   ghost t: Tree, ghost outer: set<object>)
    returns (copied': map<string, HeapValue>, ghost kids': map<string, Tree>, ghost outer': set<object>)
    requires Shows(t, HObj(obj)) && Full(t) && t.ObjNode? && Covers(t) && k in t.kids && k !in kids
    requires FieldsCopied(kids, t, outer) && FieldsShown(copied, kids, outer + t.cells) && outer !! t.cells
    ensures FieldsCopied(kids', t, outer') && FieldsShown(copied', kids', outer' + t.cells)
    ensures outer <= outer' && fresh(outer' - outer) && kids'.Keys == kids.Keys + {k}
    decreases t, 0, 0
  {
    var v, kid := DeepCopy(obj.m[k], t.kids[k]);
    FieldCopied(kids, t, outer, k, kid);
    OneMoreKey(kids, k, kid);
    copied', kids', outer' := copied[k := v], kids[k := kid], outer + Outer(kid);
    FieldShown(copied, kids, outer + t.cells, k, v, kid, outer' + t.cells);
  }

  method CopyObj(obj: ObjCell, ghost t: Tree) returns (cell: ObjCell, ghost c: Tree)
    requires Shows(t, HObj(obj)) && Full(t)
    ensures Shows(c, HObj(cell)) && Copies(c, t) && fresh(Outer(c))
    decreases t, 0, 1
  {
    var rest := obj.m.Keys;
    var copied: map<string, HeapValue> := map[];
    ghost var kids: map<string, Tree>, outer: set<object> := map[], {};
    while rest != {}
      invariant rest <= t.kids.Keys && kids.Keys == t.kids.Keys - rest
      invariant FieldsCopied(kids, t, outer) && FieldsShown(copied, kids, outer + t.cells) && fresh(outer)
    {
      var k :| k in rest;
      copied, kids, outer := CopyField(obj, k, copied, kids, t, outer);
      rest := rest - {k};
    }
    cell, c := FinishObj(copied, kids, t, outer);
  }

  method FinishObj(copied: map<string, HeapValue>, ghost kids: map<string, Tree>, ghost t: Tree, ghost outer: set<object>)
    returns (cell: ObjCell, ghost c: Tree)
    requires t.ObjNode? && FieldsCopied(kids, t, outer) && FieldsShown(copied, kids, outer + t.cells)
    requires kids.Keys == t.kids.Keys
    ensures fresh(cell) && Shows(c, HObj(cell)) && Copies(c, t) && Outer(c) == outer + {cell}
  {
    cell := new ObjCell(copied);
    c := ObjNode(cell, kids, {cell} + outer + t.cells, {cell} + outer);
    assert Snapshot(c).fields == Snapshot(t).fields;
  }

  /** The copies of the elements copied so far, with the outer cells of all of them. */
  ghost predicate ElemsCopied(copied: seq<HeapValue>, elems: seq<Tree>, t: Tree, outer: set<object>)
    requires t.ArrNode?
    reads outer, t.cells
  {
    && |copied| == |elems| <= |t.elems|
    && (forall i: nat :: i < |elems| ==>
          && Covers(elems[i]) && Copies(elems[i], t.elems[i]) && Outer(elems[i]) <= outer
          && Footprint(elems[i]) <= outer + t.cells)
    && (forall i: nat :: i < |elems| ==> Root(elems[i]) == copied[i] && Holds(elems[i]))
    && (forall i: nat, j: nat :: i < |elems| && j < |elems| && i != j ==> Outer(elems[i]) !! Footprint(elems[j]))
  }

  method CopyElem(arr: ArrCell, copied: seq<HeapValue>, ghost elems: seq<Tree>, ghost t: Tree, ghost outer: set<object>)
    returns (copied': seq<HeapValue>, ghost elems': seq<Tree>, ghost outer': set<object>)
    requires Shows(t, HArr(arr)) && Full(t) && t.ArrNode? && |elems| < |t.elems|
    requires ElemsCopied(copied, elems, t, outer) && outer !! t.cells
    ensures ElemsCopied(copied', elems', t, outer') && outer <= outer' && fresh(outer' - outer)
    ensures |elems'| == |elems| + 1
    decreases t, 0, 0
  {
    var v, elem := DeepCopy(arr.a[|copied|], t.elems[|elems|]);
    copied', elems', outer' := copied + [v], elems + [elem], outer + Outer(elem);
  }

  method CopyArr(arr: ArrCell, ghost t: Tree) returns (cell: ArrCell, ghost c: Tree)
    requires Shows(t, HArr(arr)) && Full(t)
    ensures Shows(c, HArr(cell)) && Copies(c, t) && fresh(Outer(c))
    decreases t, 0, 1
  {
    var copied: seq<HeapValue> := [];
    ghost var elems: seq<Tree>, outer: set<object> := [], {};
    for i := 0 to |arr.a|
      invariant |elems| == i && ElemsCopied(copied, elems, t, outer) && fresh(outer)
    {
      copied, elems, outer := CopyElem(arr, copied, elems, t, outer);
    }
    cell := new ArrCell(copied);
    c := ArrNode(cell, elems, {cell} + outer + t.cells, {cell} + outer);
    assert Snapshot(c).items == Snapshot(t).items;
  }

  /**
   Merging into a copy gives the merge of the originals and leaves both of them as they are.  They may
   share cells in any way.
   */
  method MergeIntoCopy(dst: HeapValue, src: HeapValue, ghost d: Tree, ghost s: Tree)
    returns (ok: bool, r: HeapValue, ghost t: Tree)
    requires Shows(d, dst) && Full(d) && Shows(s, src) && Full(s)
    ensures ok <==> !MergePanics(Snapshot(d), Snapshot(s))
    ensures ok ==> Shows(t, r) && Full(t) && Snapshot(t) == Merge(Snapshot(d), Snapshot(s))
    ensures Shows(d, dst) && Shows(s, src)
  {
    var copy, c := DeepCopy(dst, d);
    assert Holds(s) && Shows(s, src);
    FullIsOpened(c, s);
    ok, r, t := MergeInPlace(copy, src, c, s);
    if ok {
      MergesToFull(c, s, t);
    }
  }
}
