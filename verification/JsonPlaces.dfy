/** The places of a heap value, the cells at them, and what the heap says about them. */
module JsonPlaces {
  import opened Wrappers
  import opened Json
  import opened JsonHeap

  /** A step downwards: into a field, an item, or what a Replace refers to. */
  datatype Place = Field(k: string) | Item(i: nat) | Inside

  type Path = seq<Place>

  ghost function Sub(t: Tree, place: Place): (r: Option<Tree>)
    ensures r.Some? ==> r.value < t
  {
    match place
    case Field(k) => if t.ObjNode? && k in t.kids then Some(t.kids[k]) else None
    case Item(i) => if t.ArrNode? && i < |t.elems| then Some(t.elems[i]) else None
    case Inside => if t.ReplaceNode? then Some(t.with) else None
  }

  ghost function At(t: Tree, path: Path): Option<Tree>
    decreases |path|
  {
    if path == [] then Some(t)
    else
      var sub := Sub(t, path[0]);
      if sub.None? then None else At(sub.value, path[1..])
  }

  predicate IsNode(t: Tree) {
    t.ObjNode? || t.ArrNode?
  }

  ghost function CellOf(t: Tree): object
    requires IsNode(t)
  {
    if t.ObjNode? then t.obj else t.arr
  }

  ghost predicate CellAt(t: Tree, path: Path, o: object) {
    At(t, path).Some? && IsNode(At(t, path).value) && CellOf(At(t, path).value) == o
  }

  /** Merging can reach the place. */
  predicate IsOuter(path: Path) {
    Inside !in path
  }

  lemma {:induction false} AtConcat(t: Tree, p: Path, q: Path)
    requires At(t, p).Some?
    ensures At(t, p + q) == At(At(t, p).value, q)
    decreases |p|
  {
    if p == [] {
      assert p + q == q;
    } else {
      assert (p + q)[0] == p[0] && (p + q)[1..] == p[1..] + q;
      AtConcat(Sub(t, p[0]).value, p[1..], q);
    }
  }

  // ---------------------------------------------------------------------------------------
  // The exact sets of cells
  // ---------------------------------------------------------------------------------------

  ghost function UnionMap(m: map<string, set<object>>): set<object> {
    set k, o | k in m && o in m[k] :: o
  }

  ghost function UnionSeq(s: seq<set<object>>): set<object> {
    set i, o | 0 <= i < |s| && o in s[i] :: o
  }

  ghost function AllCells(t: Tree): set<object> {
    match t
    case ObjNode(c, kids, _, _) => {c} + UnionMap(map k | k in kids :: AllCells(kids[k]))
    case ArrNode(c, elems, _, _) =>
      {c} + UnionSeq(seq(|elems|, i requires 0 <= i < |elems| => AllCells(elems[i])))
    case ReplaceNode(w, _) => AllCells(w)
    case _ => {}
  }

  ghost function OuterCells(t: Tree): set<object> {
    match t
    case ObjNode(c, kids, _, _) => {c} + UnionMap(map k | k in kids :: OuterCells(kids[k]))
    case ArrNode(c, elems, _, _) =>
      {c} + UnionSeq(seq(|elems|, i requires 0 <= i < |elems| => OuterCells(elems[i])))
    case _ => {}
  }

  lemma InUnionSeq(s: seq<set<object>>, i: nat)
    requires i < |s|
    ensures s[i] <= UnionSeq(s)
  {
  }

  lemma InUnionMap(m: map<string, set<object>>, k: string)
    requires k in m
    ensures m[k] <= UnionMap(m)
  {
  }

  lemma SubCells(t: Tree, place: Place)
    requires Sub(t, place).Some?
    ensures AllCells(Sub(t, place).value) <= AllCells(t)
    ensures place != Inside ==> OuterCells(Sub(t, place).value) <= OuterCells(t)
  {
    match place
    case Field(k) =>
      InUnionMap(map j | j in t.kids :: AllCells(t.kids[j]), k);
      InUnionMap(map j | j in t.kids :: OuterCells(t.kids[j]), k);
    case Item(i) =>
      InUnionSeq(seq(|t.elems|, j requires 0 <= j < |t.elems| => AllCells(t.elems[j])), i);
      InUnionSeq(seq(|t.elems|, j requires 0 <= j < |t.elems| => OuterCells(t.elems[j])), i);
    case Inside =>
  }

  /** A cell below a node is below one of its children. */
  lemma CellIsBelow(t: Tree, o: object) returns (place: Place)
    requires o in AllCells(t) && !(IsNode(t) && CellOf(t) == o)
    ensures Sub(t, place).Some? && o in AllCells(Sub(t, place).value)
  {
    match t
    case ObjNode(_, kids, _, _) =>
      var m := map k | k in kids :: AllCells(kids[k]);
      var k :| k in m && o in m[k];
      place := Field(k);
    case ArrNode(_, elems, _, _) =>
      var m := seq(|elems|, i requires 0 <= i < |elems| => AllCells(elems[i]));
      var i :| 0 <= i < |m| && o in m[i];
      place := Item(i);
    case _ =>
      place := Inside;
  }

  lemma OuterCellIsBelow(t: Tree, o: object) returns (place: Place)
    requires o in OuterCells(t) && CellOf(t) != o
    ensures place != Inside && Sub(t, place).Some? && o in OuterCells(Sub(t, place).value)
  {
    if t.ObjNode? {
      var m := map k | k in t.kids :: OuterCells(t.kids[k]);
      var k :| k in m && o in m[k];
      place := Field(k);
    } else {
      var m := seq(|t.elems|, i requires 0 <= i < |t.elems| => OuterCells(t.elems[i]));
      var i :| 0 <= i < |m| && o in m[i];
      place := Item(i);
    }
  }

  lemma {:induction false} CellAtIsCell(t: Tree, path: Path, o: object)
    requires CellAt(t, path, o)
    ensures o in AllCells(t) && (IsOuter(path) ==> o in OuterCells(t))
    decreases |path|
  {
    if path != [] {
      CellAtIsCell(Sub(t, path[0]).value, path[1..], o);
      SubCells(t, path[0]);
    }
  }

  lemma {:induction false} CellHasPlace(t: Tree, o: object) returns (path: Path)
    requires o in AllCells(t)
    ensures CellAt(t, path, o)
    decreases t
  {
    if IsNode(t) && CellOf(t) == o {
      path := [];
    } else {
      var place := CellIsBelow(t, o);
      var rest := CellHasPlace(Sub(t, place).value, o);
      path := [place] + rest;
      assert path[1..] == rest;
    }
  }

  lemma {:induction false} OuterCellHasPlace(t: Tree, o: object) returns (path: Path)
    requires o in OuterCells(t)
    ensures CellAt(t, path, o) && IsOuter(path)
    decreases t
  {
    if CellOf(t) == o {
      path := [];
    } else {
      var place := OuterCellIsBelow(t, o);
      var rest := OuterCellHasPlace(Sub(t, place).value, o);
      path := [place] + rest;
      assert path[1..] == rest;
    }
  }

  /** The same tree, with the exact sets of cells. */
  ghost function Exact(t: Tree): Tree {
    match t
    case ObjNode(c, kids, _, _) => ObjNode(c, map k | k in kids :: Exact(kids[k]), AllCells(t), OuterCells(t))
    case ArrNode(c, elems, _, _) =>
      ArrNode(c, seq(|elems|, i requires 0 <= i < |elems| => Exact(elems[i])), AllCells(t), OuterCells(t))
    case ReplaceNode(w, _) => ReplaceNode(Exact(w), AllCells(t))
    case _ => t
  }

  lemma ExactSets(t: Tree)
    ensures Footprint(Exact(t)) == AllCells(t) && Outer(Exact(t)) == OuterCells(t) && Root(Exact(t)) == Root(t)
  {
  }

  lemma {:induction false} OuterIsAll(t: Tree)
    ensures OuterCells(t) <= AllCells(t)
    decreases t
  {
    forall o | o in OuterCells(t) ensures o in AllCells(t) {
      if CellOf(t) != o {
        var place := OuterCellIsBelow(t, o);
        OuterIsAll(Sub(t, place).value);
        SubCells(t, place);
      }
    }
  }

  lemma {:induction false} ExactCovers(t: Tree)
    requires Covers(t)
    ensures Covers(Exact(t)) && AllCells(t) <= Footprint(t)
  {
    OuterIsAll(t);
    match t
    case ObjNode(_, kids, _, _) =>
      forall k | k in kids
        ensures Covers(Exact(kids[k])) && AllCells(kids[k]) <= Footprint(kids[k])
        ensures Footprint(Exact(kids[k])) <= AllCells(t) && Outer(Exact(kids[k])) <= OuterCells(t)
      {
        ExactCovers(kids[k]);
        ExactSets(kids[k]);
        SubCells(t, Field(k));
      }
    case ArrNode(_, elems, _, _) =>
      forall i: nat | i < |elems|
        ensures Covers(Exact(elems[i])) && AllCells(elems[i]) <= Footprint(elems[i])
        ensures Footprint(Exact(elems[i])) <= AllCells(t) && Outer(Exact(elems[i])) <= OuterCells(t)
      {
        ExactCovers(elems[i]);
        ExactSets(elems[i]);
        SubCells(t, Item(i));
      }
    case ReplaceNode(w, _) =>
      ExactCovers(w);
      ExactSets(w);
    case _ =>
  }

  lemma {:induction false} ExactSnapshot(t: Tree)
    ensures Snapshot(Exact(t)) == Snapshot(t) && (Full(t) ==> Full(Exact(t)))
  {
    match t
    case ObjNode(_, kids, _, _) =>
      forall k | k in kids
        ensures Snapshot(Exact(kids[k])) == Snapshot(kids[k]) && (Full(kids[k]) ==> Full(Exact(kids[k])))
      {
        ExactSnapshot(kids[k]);
      }
      assert Snapshot(Exact(t)).fields == Snapshot(t).fields;
    case ArrNode(_, elems, _, _) =>
      forall i: nat | i < |elems|
        ensures Snapshot(Exact(elems[i])) == Snapshot(elems[i]) && (Full(elems[i]) ==> Full(Exact(elems[i])))
      {
        ExactSnapshot(elems[i]);
      }
      assert Snapshot(Exact(t)).items == Snapshot(t).items;
    case ReplaceNode(w, _) => ExactSnapshot(w);
    case _ =>
  }

  // ---------------------------------------------------------------------------------------
  // The contents of the heap
  // ---------------------------------------------------------------------------------------

  /** What is in some cells at one moment. */
  datatype World = World(objs: map<ObjCell, map<string, HeapValue>>, arrs: map<ArrCell, seq<HeapValue>>)

  ghost function Capture(cells: set<object>): World
    reads cells
  {
    World(map o: ObjCell | o in cells :: o.m, map o: ArrCell | o in cells :: o.a)
  }

  ghost function Roots(kids: map<string, Tree>): map<string, HeapValue> {
    map k | k in kids :: Root(kids[k])
  }

  ghost function RootSeq(elems: seq<Tree>): seq<HeapValue> {
    seq(|elems|, i requires 0 <= i < |elems| => Root(elems[i]))
  }

  /** The node's own cell has what the tree says. */
  ghost predicate Agrees(t: Tree, w: World) {
    && (t.ObjNode? ==> t.obj in w.objs && w.objs[t.obj] == Roots(t.kids))
    && (t.ArrNode? ==> t.arr in w.arrs && w.arrs[t.arr] == RootSeq(t.elems))
  }

  /** The world looks like the tree. */
  ghost predicate In(t: Tree, w: World) {
    Agrees(t, w) &&
    match t
    case ObjNode(_, kids, _, _) => forall k :: k in kids ==> In(kids[k], w)
    case ArrNode(_, elems, _, _) => forall i: nat :: i < |elems| ==> In(elems[i], w)
    case ReplaceNode(x, _) => In(x, w)
    case _ => true
  }

  lemma ObjAgrees(c: ObjCell, kids: map<string, Tree>)
    ensures c.m == Roots(kids) <==> c.m.Keys == kids.Keys && forall k :: k in kids ==> c.m[k] == Root(kids[k])
  {
    if c.m == Roots(kids) {
      assert Roots(kids).Keys == kids.Keys;
      assert forall k :: k in kids ==> Roots(kids)[k] == Root(kids[k]);
    }
  }

  lemma ArrAgrees(c: ArrCell, elems: seq<Tree>)
    ensures c.a == RootSeq(elems) <==> |c.a| == |elems| && forall i: nat :: i < |elems| ==> c.a[i] == Root(elems[i])
  {
  }

  lemma {:induction false} HoldsIsIn(t: Tree, cells: set<object>)
    requires Covers(t) && AllCells(t) <= cells
    ensures Holds(t) <==> In(t, Capture(cells))
  {
    match t
    case ObjNode(c, kids, _, _) =>
      ObjAgrees(c, kids);
      forall k | k in kids ensures Holds(kids[k]) <==> In(kids[k], Capture(cells)) {
        SubCells(t, Field(k));
        HoldsIsIn(kids[k], cells);
      }
      assert Agrees(t, Capture(cells)) <==> c.m == Roots(kids);
    case ArrNode(c, elems, _, _) =>
      ArrAgrees(c, elems);
      forall i: nat | i < |elems| ensures Holds(elems[i]) <==> In(elems[i], Capture(cells)) {
        SubCells(t, Item(i));
        HoldsIsIn(elems[i], cells);
      }
      assert Agrees(t, Capture(cells)) <==> c.a == RootSeq(elems);
    case ReplaceNode(w, _) => HoldsIsIn(w, cells);
    case _ =>
  }

  lemma {:induction false} AtIn(t: Tree, path: Path, w: World)
    requires In(t, w) && At(t, path).Some?
    ensures In(At(t, path).value, w) && (Full(t) ==> Full(At(t, path).value))
    decreases |path|
  {
    if path != [] {
      AtIn(Sub(t, path[0]).value, path[1..], w);
    }
  }

  /** The world determines the tree of a value. */
  lemma {:induction false} SameTree(a: Tree, b: Tree, w: World)
    requires In(a, w) && In(b, w) && Full(a) && Full(b) && Root(a) == Root(b)
    ensures Exact(a) == Exact(b)
  {
    match a
    case ObjNode(_, kids, _, _) =>
      assert b.ObjNode? && Roots(kids) == Roots(b.kids);
      assert kids.Keys == Roots(kids).Keys && b.kids.Keys == Roots(b.kids).Keys;
      forall k | k in kids ensures Exact(kids[k]) == Exact(b.kids[k]) {
        assert Roots(kids)[k] == Roots(b.kids)[k];
        SameTree(kids[k], b.kids[k], w);
      }
      SameObject(a, b);
    case ArrNode(_, elems, _, _) =>
      assert b.ArrNode? && RootSeq(elems) == RootSeq(b.elems);
      forall i: nat | i < |elems| ensures i < |b.elems| && Exact(elems[i]) == Exact(b.elems[i]) {
        assert RootSeq(elems)[i] == RootSeq(b.elems)[i];
        SameTree(elems[i], b.elems[i], w);
      }
      SameArray(a, b);
    case ReplaceNode(x, _) =>
      SameTree(x, b.with, w);
      ExactSets(x);
      ExactSets(b.with);
    case _ =>
  }

  ghost predicate SameSets(a: Tree, b: Tree) {
    AllCells(a) == AllCells(b) && OuterCells(a) == OuterCells(b)
  }

  lemma ExactSameSets(a: Tree, b: Tree)
    requires Exact(a) == Exact(b)
    ensures SameSets(a, b)
  {
    ExactSets(a);
    ExactSets(b);
  }

  lemma ObjectSets(a: Tree, b: Tree)
    requires a.ObjNode? && b.ObjNode? && a.obj == b.obj && a.kids.Keys == b.kids.Keys
    requires forall k :: k in a.kids ==> SameSets(a.kids[k], b.kids[k])
    ensures SameSets(a, b)
  {
    var all, outer := map k | k in a.kids :: AllCells(a.kids[k]), map k | k in a.kids :: OuterCells(a.kids[k]);
    assert all == map k | k in b.kids :: AllCells(b.kids[k]);
    assert outer == map k | k in b.kids :: OuterCells(b.kids[k]);
  }

  ghost function ExactKids(kids: map<string, Tree>): map<string, Tree> {
    map k | k in kids :: Exact(kids[k])
  }

  lemma ExactObject(t: Tree)
    requires t.ObjNode?
    ensures Exact(t) == ObjNode(t.obj, ExactKids(t.kids), AllCells(t), OuterCells(t))
  {
  }

  lemma SameKids(a: map<string, Tree>, b: map<string, Tree>)
    requires a.Keys == b.Keys && forall k :: k in a ==> Exact(a[k]) == Exact(b[k])
    ensures ExactKids(a) == ExactKids(b)
  {
  }

  lemma SameObject(a: Tree, b: Tree)
    requires a.ObjNode? && b.ObjNode? && a.obj == b.obj && a.kids.Keys == b.kids.Keys
    requires forall k :: k in a.kids ==> Exact(a.kids[k]) == Exact(b.kids[k])
    ensures Exact(a) == Exact(b)
  {
    forall k | k in a.kids ensures SameSets(a.kids[k], b.kids[k]) {
      ExactSameSets(a.kids[k], b.kids[k]);
    }
    ObjectSets(a, b);
    ExactObject(a);
    ExactObject(b);
    SameKids(a.kids, b.kids);
  }

  lemma ArraySets(a: Tree, b: Tree)
    requires a.ArrNode? && b.ArrNode? && a.arr == b.arr && |a.elems| == |b.elems|
    requires forall i: nat :: i < |a.elems| ==> SameSets(a.elems[i], b.elems[i])
    ensures SameSets(a, b)
  {
    var n := |a.elems|;
    var all := seq(n, i requires 0 <= i < n => AllCells(a.elems[i]));
    var outer := seq(n, i requires 0 <= i < n => OuterCells(a.elems[i]));
    assert all == seq(|b.elems|, i requires 0 <= i < |b.elems| => AllCells(b.elems[i]));
    assert outer == seq(|b.elems|, i requires 0 <= i < |b.elems| => OuterCells(b.elems[i]));
    assert AllCells(a) == {a.arr} + UnionSeq(all) && OuterCells(a) == {a.arr} + UnionSeq(outer);
  }

  ghost function ExactElems(elems: seq<Tree>): seq<Tree> {
    seq(|elems|, i requires 0 <= i < |elems| => Exact(elems[i]))
  }

  lemma ExactArray(t: Tree)
    requires t.ArrNode?
    ensures Exact(t) == ArrNode(t.arr, ExactElems(t.elems), AllCells(t), OuterCells(t))
  {
    assert Exact(t).elems == ExactElems(t.elems);
  }

  lemma SameElems(a: seq<Tree>, b: seq<Tree>)
    requires |a| == |b| && forall i: nat :: i < |a| ==> Exact(a[i]) == Exact(b[i])
    ensures ExactElems(a) == ExactElems(b)
  {
  }

  lemma SameArray(a: Tree, b: Tree)
    requires a.ArrNode? && b.ArrNode? && a.arr == b.arr && |a.elems| == |b.elems|
    requires forall i: nat :: i < |a.elems| ==> Exact(a.elems[i]) == Exact(b.elems[i])
    ensures Exact(a) == Exact(b)
  {
    forall i: nat | i < |a.elems| ensures SameSets(a.elems[i], b.elems[i]) {
      ExactSameSets(a.elems[i], b.elems[i]);
    }
    ArraySets(a, b);
    ExactArray(a);
    ExactArray(b);
    SameElems(a.elems, b.elems);
  }

  lemma {:induction false} ExactOuterCells(t: Tree)
    ensures OuterCells(Exact(t)) == OuterCells(t)
  {
    match t
    case ObjNode(_, kids, _, _) =>
      ExactObject(t);
      forall k | k in kids ensures OuterCells(Exact(kids[k])) == OuterCells(kids[k]) {
        ExactOuterCells(kids[k]);
      }
      assert (map k | k in kids :: OuterCells(kids[k])) == map k | k in ExactKids(kids) :: OuterCells(ExactKids(kids)[k]);
    case ArrNode(_, elems, _, _) =>
      ExactArray(t);
      var exact := ExactElems(elems);
      forall i: nat | i < |elems| ensures OuterCells(Exact(elems[i])) == OuterCells(elems[i]) {
        ExactOuterCells(elems[i]);
      }
      assert seq(|elems|, i requires 0 <= i < |elems| => OuterCells(elems[i]))
          == seq(|exact|, i requires 0 <= i < |exact| => OuterCells(exact[i]));
    case _ =>
  }

  lemma {:induction false} ExactAllCells(t: Tree)
    ensures AllCells(Exact(t)) == AllCells(t)
  {
    match t
    case ObjNode(_, kids, _, _) =>
      ExactObject(t);
      forall k | k in kids ensures AllCells(Exact(kids[k])) == AllCells(kids[k]) {
        ExactAllCells(kids[k]);
      }
      assert (map k | k in kids :: AllCells(kids[k])) == map k | k in ExactKids(kids) :: AllCells(ExactKids(kids)[k]);
    case ArrNode(_, elems, _, _) =>
      ExactArray(t);
      var exact := ExactElems(elems);
      forall i: nat | i < |elems| ensures AllCells(Exact(elems[i])) == AllCells(elems[i]) {
        ExactAllCells(elems[i]);
      }
      assert seq(|elems|, i requires 0 <= i < |elems| => AllCells(elems[i]))
          == seq(|exact|, i requires 0 <= i < |exact| => AllCells(exact[i]));
    case ReplaceNode(w, _) => ExactAllCells(w);
    case _ =>
  }

  lemma RootsExact(kids: map<string, Tree>)
    ensures Roots(ExactKids(kids)) == Roots(kids)
  {
    forall k | k in kids ensures Root(Exact(kids[k])) == Root(kids[k]) {
      ExactSets(kids[k]);
    }
  }

  lemma RootSeqExact(elems: seq<Tree>)
    ensures RootSeq(ExactElems(elems)) == RootSeq(elems)
  {
    forall i: nat | i < |elems| ensures Root(Exact(elems[i])) == Root(elems[i]) {
      ExactSets(elems[i]);
    }
  }

  lemma {:induction false} ExactIn(t: Tree, w: World)
    requires In(t, w)
    ensures In(Exact(t), w)
  {
    match t
    case ObjNode(c, kids, _, _) =>
      forall k | k in kids ensures In(Exact(kids[k]), w) {
        ExactIn(kids[k], w);
      }
      RootsExact(kids);
      assert In(ObjNode(c, ExactKids(kids), AllCells(t), OuterCells(t)), w);
      ExactObject(t);
    case ArrNode(c, elems, _, _) =>
      forall i: nat | i < |elems| ensures In(Exact(elems[i]), w) {
        ExactIn(elems[i], w);
      }
      RootSeqExact(elems);
      assert In(ArrNode(c, ExactElems(elems), AllCells(t), OuterCells(t)), w);
      ExactArray(t);
    case ReplaceNode(x, _) => ExactIn(x, w);
    case _ =>
  }

  lemma ExactIsBelow(t: Tree, place: Place)
    requires Sub(t, place).Some?
    ensures Exact(Sub(t, place).value) < Exact(t)
  {
    match place
    case Field(k) =>
      ExactObject(t);
      assert Exact(t).kids[k] == Exact(t.kids[k]);
    case Item(i) =>
      ExactArray(t);
      assert Exact(t).elems[i] == Exact(t.elems[i]);
    case Inside =>
  }

  lemma {:induction false} ExactDescends(t: Tree, path: Path)
    requires path != [] && At(t, path).Some?
    ensures Exact(At(t, path).value) < Exact(t)
    decreases |path|
  {
    ExactIsBelow(t, path[0]);
    if |path| > 1 {
      ExactDescends(Sub(t, path[0]).value, path[1..]);
    } else {
      assert path[1..] == [];
    }
  }

  /** No cell is below itself. */
  lemma Acyclic(t: Tree, path: Path, w: World)
    requires In(t, w) && Full(t) && IsNode(t) && path != []
    ensures !CellAt(t, path, CellOf(t))
  {
    if CellAt(t, path, CellOf(t)) {
      AtIn(t, path, w);
      SameTree(t, At(t, path).value, w);
      ExactDescends(t, path);
    }
  }

  /** The node of every cell, as it was in the beginning. */
  type Nodes = map<object, Tree>

  /** All nodes of the tree are those of the map. */
  ghost predicate Known(t: Tree, nodes: Nodes) {
    (IsNode(t) ==> CellOf(t) in nodes && nodes[CellOf(t)] == t) &&
    match t
    case ObjNode(_, kids, _, _) => forall k :: k in kids ==> Known(kids[k], nodes)
    case ArrNode(_, elems, _, _) => forall i: nat :: i < |elems| ==> Known(elems[i], nodes)
    case ReplaceNode(w, _) => Known(w, nodes)
    case _ => true
  }
}
