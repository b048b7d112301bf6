/**
 Exactly which destinations can be merged into in place: those in which no cell that merging can reach is
 at a second place.  For any other destination there is a source on which merging in place fails.
 */
module JsonSharing {
  import opened Wrappers
  import opened Json
  import opened JsonHeap
  import opened JsonPlaces
  import JsonLaws

  /** No cell that merging can reach is at a second place, be it below a handler. */
  ghost predicate Single(t: Tree) {
    forall p: Path, q: Path :: IsOuter(p) && SameCell(t, p, q) ==> p == q
  }

  /** One cell is at both places. */
  ghost predicate SameCell(t: Tree, p: Path, q: Path) {
    At(t, p).Some? && IsNode(At(t, p).value) && CellAt(t, q, CellOf(At(t, p).value))
  }

  // ---------------------------------------------------------------------------------------
  // Destinations without such cells
  // ---------------------------------------------------------------------------------------

  lemma CellBelow(t: Tree, place: Place, path: Path, o: object)
    requires Sub(t, place).Some? && CellAt(Sub(t, place).value, path, o)
    ensures CellAt(t, [place] + path, o)
  {
    assert ([place] + path)[1..] == path;
  }

  lemma SingleBelow(t: Tree, place: Place)
    requires Single(t) && Sub(t, place).Some? && place != Inside
    ensures Single(Sub(t, place).value)
  {
    var sub := Sub(t, place).value;
    forall p: Path, q: Path | IsOuter(p) && SameCell(sub, p, q) ensures p == q {
      var o := CellOf(At(sub, p).value);
      CellBelow(t, place, p, o);
      CellBelow(t, place, q, o);
      assert IsOuter([place] + p) && SameCell(t, [place] + p, [place] + q);
      assert ([place] + p)[1..] == p && ([place] + q)[1..] == q;
    }
  }

  lemma SingleRoot(t: Tree, place: Place)
    requires Single(t) && IsNode(t) && Sub(t, place).Some?
    ensures CellOf(t) !in AllCells(Sub(t, place).value)
  {
    var o := CellOf(t);
    if o in AllCells(Sub(t, place).value) {
      var path := CellHasPlace(Sub(t, place).value, o);
      CellBelow(t, place, path, o);
      assert IsOuter([]) && SameCell(t, [], [place] + path);
    }
  }

  lemma SingleSiblings(t: Tree, a: Place, b: Place)
    requires Single(t) && a != b && a != Inside && Sub(t, a).Some? && Sub(t, b).Some?
    ensures OuterCells(Sub(t, a).value) !! AllCells(Sub(t, b).value)
  {
    forall o | o in OuterCells(Sub(t, a).value) ensures o !in AllCells(Sub(t, b).value) {
      if o in AllCells(Sub(t, b).value) {
        var p := OuterCellHasPlace(Sub(t, a).value, o);
        var q := CellHasPlace(Sub(t, b).value, o);
        CellBelow(t, a, p, o);
        CellBelow(t, b, q, o);
        assert ([a] + p)[0] == a && ([b] + q)[0] == b;
        assert IsOuter([a] + p) && SameCell(t, [a] + p, [b] + q);
      }
    }
  }

  lemma {:induction false} SingleIsUnshared(t: Tree)
    requires Single(t)
    ensures Unshared(Exact(t))
  {
    match t
    case ObjNode(c, kids, _, _) =>
      ExactObject(t);
      forall k | k in kids ensures Unshared(Exact(kids[k])) && c !in Footprint(Exact(kids[k])) {
        SingleBelow(t, Field(k));
        SingleIsUnshared(kids[k]);
        SingleRoot(t, Field(k));
        ExactSets(kids[k]);
      }
      forall k, k' | k in kids && k' in kids && k != k' ensures Outer(Exact(kids[k])) !! Footprint(Exact(kids[k'])) {
        SingleSiblings(t, Field(k), Field(k'));
        ExactSets(kids[k]);
        ExactSets(kids[k']);
      }
    case ArrNode(c, elems, _, _) =>
      ExactArray(t);
      forall i: nat | i < |elems| ensures Unshared(Exact(elems[i])) && c !in Footprint(Exact(elems[i])) {
        SingleBelow(t, Item(i));
        SingleIsUnshared(elems[i]);
        SingleRoot(t, Item(i));
        ExactSets(elems[i]);
      }
      forall i: nat, j: nat | i < |elems| && j < |elems| && i != j
        ensures Outer(Exact(elems[i])) !! Footprint(Exact(elems[j]))
      {
        SingleSiblings(t, Item(i), Item(j));
        ExactSets(elems[i]);
        ExactSets(elems[j]);
      }
    case _ =>
  }

  /** The tree with the exact sets of cells shows the same value. */
  lemma ExactShows(t: Tree, v: HeapValue)
    requires Shows(t, v)
    ensures Covers(Exact(t)) && AllCells(t) <= Footprint(t) && Shows(Exact(t), v)
  {
    ExactCovers(t);
    ExactSets(t);
    HoldsIsIn(t, Footprint(t));
    ExactIn(t, Capture(Footprint(t)));
    ExactAllCells(t);
    HoldsIsIn(Exact(t), Footprint(t));
  }

  /**
   Into a destination of this kind, any source apart from it can be merged in place: the call panics if and
   only if the merge of the snapshots does, and otherwise the result shows that merge.
   */
  method MergeIntoSingle(dst: HeapValue, src: HeapValue, ghost d: Tree, ghost s: Tree)
    returns (ok: bool, r: HeapValue, ghost t: Tree)
    requires Shows(d, dst) && Full(d) && Single(d) && Shows(s, src) && Full(s) && Footprint(d) !! Footprint(s)
    modifies Footprint(d)
    ensures ok <==> !MergePanics(Snapshot(d), Snapshot(s))
    ensures ok ==> Shows(t, r) && Full(t) && Snapshot(t) == Merge(Snapshot(d), Snapshot(s))
  {
    ghost var exact := Exact(d);
    ExactShows(d, dst);
    ExactSets(d);
    ExactSnapshot(d);
    OuterIsAll(d);
    SingleIsUnshared(d);
    FullIsOpened(exact, s);
    ok, r, t := MergeInPlace(dst, src, exact, s);
    if ok {
      MergesToFull(exact, s, t);
    }
  }

  // ---------------------------------------------------------------------------------------
  // A patch for one place
  // ---------------------------------------------------------------------------------------

  /** The value that puts y at the path, and leaves everything else as it is. */
  function PatchValue(path: Path, y: Value): Value
    decreases |path|
  {
    if path == [] then y
    else
      match path[0]
      case Field(k) => Obj(map[k := PatchValue(path[1..], y)])
      case Item(i) => Arr(seq(i, _ => Keep) + [PatchValue(path[1..], y)])
      case Inside => y
  }

  function Look(v: Value, path: Path): Option<Value>
    decreases |path|
  {
    if path == [] then Some(v)
    else
      match path[0]
      case Field(k) => if v.Obj? && k in v.fields then Look(v.fields[k], path[1..]) else None
      case Item(i) => if v.Arr? && i < |v.items| then Look(v.items[i], path[1..]) else None
      case Inside => if v.Replace? then Look(v.with, path[1..]) else None
  }

  /** The path leads through the value; its last step may be to a new field. */
  predicate Fits(v: Value, path: Path)
    decreases |path|
  {
    path == [] ||
    match path[0]
    case Field(k) => v.Obj? && if k in v.fields then Fits(v.fields[k], path[1..]) else |path| == 1
    case Item(i) => v.Arr? && i < |v.items| && Fits(v.items[i], path[1..])
    case Inside => false
  }

  predicate Diverge(p: Path, q: Path)
    decreases |p|
  {
    p != [] && q != [] && (p[0] != q[0] || Diverge(p[1..], q[1..]))
  }

  /** Merging a patch does not change what is at other places, and does not panic. */
  lemma {:induction false} PatchElsewhere(v: Value, p: Path, y: Value, q: Path)
    requires Fits(v, p) && Diverge(p, q) && y.Scalar?
    ensures Look(Merge(v, PatchValue(p, y)), q) == Look(v, q)
    decreases |p|
  {
    var patch := PatchValue(p, y);
    match p[0] {
      case Field(k) =>
        JsonLaws.MergeObjects(v, patch);
        if p[0] == q[0] && k in v.fields {
          PatchElsewhere(v.fields[k], p[1..], y, q[1..]);
        }
      case Item(i) =>
        JsonLaws.MergeArrays(v, patch);
        assert |patch.items| == i + 1 && patch.items[i] == PatchValue(p[1..], y);
        assert forall j: nat :: j < i ==> patch.items[j] == Keep;
        if p[0] == q[0] {
          PatchElsewhere(v.items[i], p[1..], y, q[1..]);
        }
      case Inside =>
    }
  }

  lemma {:induction false} PatchDoesNotPanic(v: Value, p: Path, y: Value)
    requires y.Scalar?
    ensures !MergePanics(v, PatchValue(p, y))
    decreases |p|
  {
    if p != [] && p[0].Field? && v.Obj? && p[0].k in v.fields {
      PatchDoesNotPanic(v.fields[p[0].k], p[1..], y);
    } else if p != [] && p[0].Item? && v.Arr? && p[0].i < |v.items| {
      var i := p[0].i;
      PatchDoesNotPanic(v.items[i], p[1..], y);
      var items := seq(i, _ => Keep) + [PatchValue(p[1..], y)];
      assert forall j: nat :: j < i ==> items[j] == Keep;
      assert items[i] == PatchValue(p[1..], y);
    }
  }

  /** The tree of a patch. */
  ghost predicate IsPatch(s: Tree, path: Path, y: Value)
    decreases |path|
  {
    if path == [] then s == Leaf(y)
    else
      match path[0]
      case Field(k) => s.ObjNode? && s.kids.Keys == {k} && IsPatch(s.kids[k], path[1..], y)
      case Item(i) =>
        && s.ArrNode? && |s.elems| == i + 1 && (forall j: nat :: j < i ==> s.elems[j] == Leaf(Keep))
        && IsPatch(s.elems[i], path[1..], y)
      case Inside => false
  }

  lemma {:induction false} PatchSnapshot(s: Tree, path: Path, y: Value)
    requires IsPatch(s, path, y) && y.Scalar?
    ensures Snapshot(s) == PatchValue(path, y) && Full(s)
    decreases |path|
  {
    if path != [] {
      match path[0] {
        case Field(k) =>
          PatchSnapshot(s.kids[k], path[1..], y);
          assert Snapshot(s).fields == map[k := PatchValue(path[1..], y)];
        case Item(i) =>
          PatchSnapshot(s.elems[i], path[1..], y);
          assert Snapshot(s).items == seq(i, _ => Keep) + [PatchValue(path[1..], y)];
      }
    }
  }

  lemma PadCovers(cell: ArrCell, i: nat, child: Tree)
    requires Covers(child)
    ensures Covers(ArrNode(cell, seq(i, _ => Leaf(Keep)) + [child], {cell} + Footprint(child), {cell} + Footprint(child)))
  {
    var elems := seq(i, _ => Leaf(Keep)) + [child];
    OuterInFootprint(child);
    forall j: nat | j < |elems|
      ensures Covers(elems[j]) && Footprint(elems[j]) <= Footprint(child) && Outer(elems[j]) <= Footprint(child)
    {
      assert elems[j] == if j < i then Leaf(Keep) else child;
    }
  }

  method BuildPatch(path: Path, y: Value) returns (src: HeapValue, ghost s: Tree)
    requires IsOuter(path) && y.Scalar?
    ensures Shows(s, src) && IsPatch(s, path, y) && fresh(Footprint(s))
    decreases |path|
  {
    if path == [] {
      return HLeaf(y), Leaf(y);
    }
    var sub, child := BuildPatch(path[1..], y);
    OuterInFootprint(child);
    match path[0] {
      case Field(k) =>
        var cell := new ObjCell(map[k := sub]);
        src, s := HObj(cell), ObjNode(cell, map[k := child], {cell} + Footprint(child), {cell} + Footprint(child));
      case Item(i) =>
        var cell := new ArrCell(seq(i, _ => HLeaf(Keep)) + [sub]);
        ghost var elems := seq(i, _ => Leaf(Keep)) + [child];
        PadCovers(cell, i, child);
        src, s := HArr(cell), ArrNode(cell, elems, {cell} + Footprint(child), {cell} + Footprint(child));
      case Inside =>
    }
  }

  // ---------------------------------------------------------------------------------------
  // Seeing a destination along one path only
  // ---------------------------------------------------------------------------------------

  ghost function Hide(kids: map<string, Tree>): map<string, Tree> {
    map k | k in kids :: Unseen(Root(kids[k]))
  }

  ghost function HideSeq(elems: seq<Tree>): seq<Tree> {
    seq(|elems|, i requires 0 <= i < |elems| => Unseen(Root(elems[i])))
  }

  /** The tree with nothing but the cells along the path. */
  ghost function Along(t: Tree, path: Path): Tree
    decreases |path|
  {
    if !IsNode(t) then t
    else if path == [] || Sub(t, path[0]).None? || path[0].Inside? then
      if t.ObjNode? then ObjNode(t.obj, Hide(t.kids), {t.obj}, {t.obj})
      else ArrNode(t.arr, HideSeq(t.elems), {t.arr}, {t.arr})
    else
      var child := Along(Sub(t, path[0]).value, path[1..]);
      if t.ObjNode? then
        ObjNode(t.obj, Hide(t.kids)[path[0].k := child], {t.obj} + Footprint(child), {t.obj} + Outer(child))
      else
        ArrNode(t.arr, HideSeq(t.elems)[path[0].i := child], {t.arr} + Footprint(child), {t.arr} + Outer(child))
  }

  /** A cell that merging can reach is at the path. */
  ghost predicate Reaches(t: Tree, path: Path) {
    IsOuter(path) && At(t, path).Some? && IsNode(At(t, path).value)
  }

  lemma ReachesBelow(t: Tree, path: Path)
    requires Reaches(t, path) && path != []
    ensures IsNode(t) && Sub(t, path[0]).Some? && path[0] != Inside && Reaches(Sub(t, path[0]).value, path[1..])
  {
  }

  lemma {:induction false} AlongShows(t: Tree, path: Path, w: World)
    requires Covers(t) && In(t, w) && Reaches(t, path)
    ensures var u := Along(t, path);
            IsNode(u) && Root(u) == Root(t) && Covers(u) && In(u, w) && Outer(u) == Footprint(u) <= Footprint(t)
    decreases |path|
  {
    if path != [] {
      ReachesBelow(t, path);
      AlongShows(Sub(t, path[0]).value, path[1..], w);
    }
    if t.ObjNode? {
      AlongObject(t, path, w);
    } else {
      AlongArray(t, path, w);
    }
  }

  lemma AlongObject(t: Tree, path: Path, w: World)
    requires t.ObjNode? && Covers(t) && In(t, w) && Reaches(t, path)
    requires path != [] ==>
               var sub := Sub(t, path[0]).value;
               var u := Along(sub, path[1..]);
               Root(u) == Root(sub) && Covers(u) && In(u, w) && Outer(u) == Footprint(u) <= Footprint(sub)
    ensures var u := Along(t, path); Covers(u) && In(u, w) && Outer(u) == Footprint(u) <= Footprint(t)
  {
    assert Roots(Hide(t.kids)) == Roots(t.kids);
    var u := Along(t, path);
    assert Roots(u.kids) == Roots(t.kids);
    forall k | k in u.kids
      ensures Covers(u.kids[k]) && In(u.kids[k], w)
      ensures Footprint(u.kids[k]) <= u.cells && Outer(u.kids[k]) <= u.outer
    {
      if path == [] || k != path[0].k {
        assert u.kids[k] == Unseen(Root(t.kids[k]));
      } else {
        assert u.kids[k] == Along(t.kids[k], path[1..]);
      }
    }
  }

  lemma AlongArray(t: Tree, path: Path, w: World)
    requires t.ArrNode? && Covers(t) && In(t, w) && Reaches(t, path)
    requires path != [] ==>
               var sub := Sub(t, path[0]).value;
               var u := Along(sub, path[1..]);
               Root(u) == Root(sub) && Covers(u) && In(u, w) && Outer(u) == Footprint(u) <= Footprint(sub)
    ensures var u := Along(t, path); Covers(u) && In(u, w) && Outer(u) == Footprint(u) <= Footprint(t)
  {
    assert RootSeq(HideSeq(t.elems)) == RootSeq(t.elems);
    var u := Along(t, path);
    assert RootSeq(u.elems) == RootSeq(t.elems);
    forall i: nat | i < |u.elems|
      ensures Covers(u.elems[i]) && In(u.elems[i], w)
      ensures Footprint(u.elems[i]) <= u.cells && Outer(u.elems[i]) <= u.outer
    {
      if path == [] || i != path[0].i {
        assert u.elems[i] == Unseen(Root(t.elems[i]));
      } else {
        assert u.elems[i] == Along(t.elems[i], path[1..]);
      }
    }
  }

  lemma {:induction false} AlongCells(t: Tree, path: Path, o: object) returns (i: nat)
    requires Reaches(t, path) && o in Footprint(Along(t, path))
    ensures i <= |path| && CellAt(t, path[..i], o)
    decreases |path|
  {
    if CellOf(t) == o {
      i := 0;
    } else {
      ReachesBelow(t, path);
      var j := AlongCells(Sub(t, path[0]).value, path[1..], o);
      i := j + 1;
      assert path[..i] == [path[0]] + path[1..][..j];
      CellBelow(t, path[0], path[1..][..j], o);
    }
  }

  lemma RootIsNotBelow(t: Tree, path: Path, w: World)
    requires In(t, w) && Full(t) && Reaches(t, path) && path != []
    ensures CellOf(t) !in Footprint(Along(Sub(t, path[0]).value, path[1..]))
  {
    ReachesBelow(t, path);
    var sub, o := Sub(t, path[0]).value, CellOf(t);
    if o in Footprint(Along(sub, path[1..])) {
      var i := AlongCells(sub, path[1..], o);
      CellBelow(t, path[0], path[1..][..i], o);
      Acyclic(t, [path[0]] + path[1..][..i], w);
    }
  }

  lemma {:induction false} AlongUnshared(t: Tree, path: Path, w: World)
    requires In(t, w) && Full(t) && Reaches(t, path)
    ensures Unshared(Along(t, path))
    decreases |path|
  {
    if path != [] {
      ReachesBelow(t, path);
      RootIsNotBelow(t, path, w);
      AlongUnshared(Sub(t, path[0]).value, path[1..], w);
    }
    OnlyChild(t, path);
  }

  /** At most one child of the node has cells. */
  lemma OnlyChild(t: Tree, path: Path)
    requires Reaches(t, path)
    requires path != [] ==>
               var child := Along(Sub(t, path[0]).value, path[1..]);
               Unshared(child) && CellOf(t) !in Footprint(child)
    ensures Unshared(Along(t, path))
  {
    var u := Along(t, path);
    if path != [] {
      ReachesBelow(t, path);
    }
    if t.ObjNode? {
      forall k | k in u.kids ensures u.kids[k].Unseen? || (path != [] && k == path[0].k)
        ensures Unshared(u.kids[k]) && t.obj !in Footprint(u.kids[k])
      {
        assert path == [] || k != path[0].k ==> u.kids[k] == Unseen(Root(t.kids[k]));
      }
    } else {
      forall i: nat | i < |u.elems| ensures u.elems[i].Unseen? || (path != [] && i == path[0].i)
        ensures Unshared(u.elems[i]) && t.arr !in Footprint(u.elems[i])
      {
        assert path == [] || i != path[0].i ==> u.elems[i] == Unseen(Root(t.elems[i]));
      }
    }
  }

  /** The place is in the node: a field, which may be new, or an index. */
  ghost predicate HasPlace(t: Tree, z: Place) {
    (t.ObjNode? && z.Field?) || (t.ArrNode? && z.Item? && z.i < |t.elems|)
  }

  lemma {:induction false} AlongOpened(t: Tree, path: Path, z: Place, s: Tree, y: Value)
    requires Reaches(t, path) && z != Inside && IsPatch(s, path + [z], y) && y.Scalar?
    ensures Opened(Along(t, path), s)
    decreases |path|
  {
    if path == [] {
      assert (path + [z])[1..] == [];
    } else {
      assert (path + [z])[1..] == path[1..] + [z];
      ReachesBelow(t, path);
      AlongOpened(Sub(t, path[0]).value, path[1..], z, if s.ObjNode? then s.kids[path[0].k] else s.elems[path[0].i], y);
    }
  }

  // ---------------------------------------------------------------------------------------
  // What a patch does to the cells
  // ---------------------------------------------------------------------------------------

  /** The node has the same children, as far as the heap tells. */
  ghost predicate SameRoots(t: Tree, u: Tree) {
    && IsNode(t) && IsNode(u) && Root(t) == Root(u)
    && (t.ObjNode? ==> Roots(t.kids) == Roots(u.kids))
    && (t.ArrNode? ==> RootSeq(t.elems) == RootSeq(u.elems))
  }

  /** The node has the same children except for y at the place. */
  ghost predicate PutAt(t: Tree, u: Tree, z: Place, y: Value) {
    && IsNode(t) && IsNode(u) && Root(t) == Root(u) && HasPlace(t, z)
    && (t.ObjNode? ==> Roots(u.kids) == Roots(t.kids)[z.k := HLeaf(y)])
    && (t.ArrNode? ==> RootSeq(u.elems) == RootSeq(t.elems)[z.i := HLeaf(y)])
  }

  /** The nodes along the path have the same children except for the last one, which has y at the place. */
  ghost predicate Patched(t: Tree, u: Tree, path: Path, z: Place, y: Value)
    decreases |path|
  {
    if path == [] then PutAt(t, u, z, y)
    else
      && SameRoots(t, u) && Sub(t, path[0]).Some? && Sub(u, path[0]).Some?
      && Patched(Sub(t, path[0]).value, Sub(u, path[0]).value, path[1..], z, y)
  }

  lemma {:induction false} PatchEffect(t: Tree, path: Path, z: Place, s: Tree, y: Value, u: Tree)
    requires Reaches(t, path) && HasPlace(At(t, path).value, z) && IsPatch(s, path + [z], y) && y.Scalar?
    requires MergesTo(Along(t, path), s, u)
    ensures Patched(t, u, path, z, y) && Root(u) == Root(t)
    decreases |path|
  {
    if path == [] {
      assert (path + [z])[0] == z && (path + [z])[1..] == [];
      PatchHere(t, z, s, y, u);
    } else {
      assert (path + [z])[0] == path[0] && (path + [z])[1..] == path[1..] + [z];
      ReachesBelow(t, path);
      if t.ObjNode? {
        var k := path[0].k;
        PatchObject(t, path, k, s, u);
        PatchEffect(t.kids[k], path[1..], z, s.kids[k], y, u.kids[k]);
        SameFields(t.kids, u.kids, k);
      } else {
        var i := path[0].i;
        PatchArray(t, path, i, s, u);
        PatchEffect(t.elems[i], path[1..], z, s.elems[i], y, u.elems[i]);
        SameItems(t.elems, u.elems, i);
      }
    }
  }

  lemma PatchHere(t: Tree, z: Place, s: Tree, y: Value, u: Tree)
    requires IsNode(t) && HasPlace(t, z) && IsPatch(s, [z], y) && y.Scalar? && MergesTo(Along(t, []), s, u)
    ensures PutAt(t, u, z, y)
  {
    assert [z][1..] == [];
    if t.ObjNode? {
      PatchObject(t, [], z.k, s, u);
      PutField(t, u, z.k, y);
    } else {
      PatchArray(t, [], z.i, s, u);
      PutItem(t, u, z.i, y);
    }
  }

  lemma SameFields(a: map<string, Tree>, b: map<string, Tree>, k: string)
    requires k in a && k in b && b.Keys == a.Keys + {k} && Root(a[k]) == Root(b[k])
    requires forall j :: j in a && j != k ==> Root(b[j]) == Root(a[j])
    ensures Roots(a) == Roots(b)
  {
  }

  lemma SameItems(a: seq<Tree>, b: seq<Tree>, i: nat)
    requires i < |a| == |b| && Root(a[i]) == Root(b[i])
    requires forall j: nat :: j < |a| && j != i ==> Root(b[j]) == Root(a[j])
    ensures RootSeq(a) == RootSeq(b)
  {
  }

  lemma PutField(t: Tree, u: Tree, k: string, y: Value)
    requires t.ObjNode? && u.ObjNode? && Root(u) == Root(t) && u.kids.Keys == t.kids.Keys + {k} && u.kids[k] == Leaf(y)
    requires forall j :: j in t.kids && j != k ==> Root(u.kids[j]) == Root(t.kids[j])
    ensures PutAt(t, u, Field(k), y)
  {
    assert Roots(u.kids) == Roots(t.kids)[k := HLeaf(y)];
  }

  lemma PutItem(t: Tree, u: Tree, i: nat, y: Value)
    requires t.ArrNode? && u.ArrNode? && Root(u) == Root(t) && i < |u.elems| == |t.elems| && u.elems[i] == Leaf(y)
    requires forall j: nat :: j < |t.elems| && j != i ==> Root(u.elems[j]) == Root(t.elems[j])
    ensures PutAt(t, u, Item(i), y)
  {
    assert RootSeq(u.elems) == RootSeq(t.elems)[i := HLeaf(y)];
  }

  /** One level of an object: only the field of the patch is merged. */
  lemma PatchObject(t: Tree, path: Path, k: string, s: Tree, u: Tree)
    requires Reaches(t, path) && t.ObjNode? && MergesTo(Along(t, path), s, u)
    requires (path == [] || path[0] == Field(k)) && s.ObjNode? && s.kids.Keys == {k}
    ensures u.ObjNode? && Root(u) == Root(t) && u.kids.Keys == t.kids.Keys + {k}
    ensures forall j :: j in t.kids && j != k ==> Root(u.kids[j]) == Root(t.kids[j])
    ensures if path != [] then k in t.kids && MergesTo(Along(t.kids[k], path[1..]), s.kids[k], u.kids[k])
            else s.kids[k].Leaf? && s.kids[k].v.Scalar? ==> u.kids[k] == s.kids[k]
  {
    var d := Along(t, path);
    if path != [] {
      ReachesBelow(t, path);
    }
    assert d.kids.Keys == t.kids.Keys;
    assert FieldMergesTo(d, s, k, u.kids[k]);
    if k in d.kids {
      assert MergesTo(d.kids[k], s.kids[k], u.kids[k]);
    }
    forall j | j in t.kids && j != k ensures Root(u.kids[j]) == Root(t.kids[j]) {
      assert d.kids[j] == Unseen(Root(t.kids[j]));
      assert FieldMergesTo(d, s, j, u.kids[j]);
    }
  }

  /** One level of an array: only the item of the patch is merged. */
  lemma PatchArray(t: Tree, path: Path, i: nat, s: Tree, u: Tree)
    requires Reaches(t, path) && t.ArrNode? && i < |t.elems| && MergesTo(Along(t, path), s, u)
    requires path == [] || path[0] == Item(i)
    requires s.ArrNode? && |s.elems| == i + 1 && forall j: nat :: j < i ==> s.elems[j] == Leaf(Keep)
    ensures u.ArrNode? && Root(u) == Root(t) && |u.elems| == |t.elems|
    ensures forall j: nat :: j < |t.elems| && j != i ==> Root(u.elems[j]) == Root(t.elems[j])
    ensures if path != [] then MergesTo(Along(t.elems[i], path[1..]), s.elems[i], u.elems[i])
            else s.elems[i].Leaf? && s.elems[i].v.Scalar? ==> u.elems[i] == s.elems[i]
  {
    var d := Along(t, path);
    if path != [] {
      ReachesBelow(t, path);
    }
    assert |d.elems| == |t.elems|;
    assert ElemMergesTo(d, s, i, u.elems[i]);
    assert MergesTo(d.elems[i], s.elems[i], u.elems[i]);
    forall j: nat | j < |t.elems| && j != i ensures Root(u.elems[j]) == Root(t.elems[j]) {
      assert d.elems[j] == Unseen(Root(t.elems[j]));
      assert ElemMergesTo(d, s, j, u.elems[j]);
      if j < i {
        assert s.elems[j] == Leaf(Keep) && MergesTo(d.elems[j], s.elems[j], u.elems[j]);
      }
    }
  }

  /** The cell of the node has the same content in both worlds. */
  ghost predicate SameContent(t: Tree, w: World, w': World) {
    && (t.ObjNode? ==> t.obj in w.objs && t.obj in w'.objs && w.objs[t.obj] == w'.objs[t.obj])
    && (t.ArrNode? ==> t.arr in w.arrs && t.arr in w'.arrs && w.arrs[t.arr] == w'.arrs[t.arr])
  }

  /** The cell of the node has y at the place in the second world, and otherwise the same content. */
  ghost predicate PutContent(t: Tree, z: Place, y: Value, w: World, w': World)
    requires HasPlace(t, z)
  {
    && (t.ObjNode? ==> t.obj in w.objs && t.obj in w'.objs && w'.objs[t.obj] == w.objs[t.obj][z.k := HLeaf(y)])
    && (t.ArrNode? ==>
          && t.arr in w.arrs && t.arr in w'.arrs && z.i < |w.arrs[t.arr]|
          && w'.arrs[t.arr] == w.arrs[t.arr][z.i := HLeaf(y)])
  }

  lemma {:induction false} PathContents(t: Tree, u: Tree, path: Path, z: Place, y: Value, w: World, w': World, i: nat)
    requires In(t, w) && In(u, w') && Patched(t, u, path, z, y) && At(t, path).Some? && HasPlace(At(t, path).value, z)
    requires i <= |path|
    ensures At(t, path[..i]).Some?
    ensures if i < |path| then SameContent(At(t, path[..i]).value, w, w')
            else PutContent(At(t, path).value, z, y, w, w')
    decreases |path|
  {
    if i == 0 {
      assert path[..0] == [];
    } else {
      assert path[..i][0] == path[0] && path[..i][1..] == path[1..][..i - 1];
      PathContents(Sub(t, path[0]).value, Sub(u, path[0]).value, path[1..], z, y, w, w', i - 1);
    }
  }

  /** Only the cell of the node changes, and it gets y at the place. */
  ghost predicate Changed(c: Tree, z: Place, y: Value, w: World, w': World)
    requires HasPlace(c, z)
  {
    && PutContent(c, z, y, w, w')
    && (forall o :: o in w.objs && !(c.ObjNode? && o == c.obj) ==> o in w'.objs && w'.objs[o] == w.objs[o])
    && (forall o :: o in w.arrs && !(c.ArrNode? && o == c.arr) ==> o in w'.arrs && w'.arrs[o] == w.arrs[o])
  }

  // ---------------------------------------------------------------------------------------
  // How the patched heap looks
  // ---------------------------------------------------------------------------------------

  /** The tree with y at the place of cell c, wherever that cell is. */
  ghost function Poke(t: Tree, c: Tree, z: Place, y: Value): Tree
    requires HasPlace(c, z)
  {
    match t
    case ObjNode(o, kids, cells, outer) =>
      var poked := map k | k in kids :: Poke(kids[k], c, z, y);
      ObjNode(o, if c.ObjNode? && o == c.obj then poked[z.k := Leaf(y)] else poked, cells, outer)
    case ArrNode(o, elems, cells, outer) =>
      var poked := seq(|elems|, i requires 0 <= i < |elems| => Poke(elems[i], c, z, y));
      ArrNode(o, if c.ArrNode? && o == c.arr && z.i < |poked| then poked[z.i := Leaf(y)] else poked, cells, outer)
    case ReplaceNode(x, cells) => ReplaceNode(Poke(x, c, z, y), cells)
    case _ => t
  }

  lemma {:induction false} PokeRoot(t: Tree, c: Tree, z: Place, y: Value)
    requires HasPlace(c, z)
    ensures var u := Poke(t, c, z, y);
            Root(u) == Root(t) && Footprint(u) == Footprint(t) && Outer(u) == Outer(t)
  {
    if t.ReplaceNode? {
      PokeRoot(t.with, c, z, y);
    }
  }

  lemma {:induction false} PokeCovers(t: Tree, c: Tree, z: Place, y: Value)
    requires HasPlace(c, z) && y.Scalar? && Covers(t)
    ensures Covers(Poke(t, c, z, y))
  {
    var u := Poke(t, c, z, y);
    match t
    case ObjNode(_, kids, _, _) =>
      forall k | k in u.kids
        ensures Covers(u.kids[k]) && Footprint(u.kids[k]) <= t.cells && Outer(u.kids[k]) <= t.outer
      {
        if u.kids[k] != Leaf(y) {
          assert u.kids[k] == Poke(kids[k], c, z, y);
          PokeCovers(kids[k], c, z, y);
          PokeRoot(kids[k], c, z, y);
        }
      }
    case ArrNode(_, elems, _, _) =>
      forall i: nat | i < |u.elems|
        ensures Covers(u.elems[i]) && Footprint(u.elems[i]) <= t.cells && Outer(u.elems[i]) <= t.outer
      {
        if u.elems[i] != Leaf(y) {
          assert u.elems[i] == Poke(elems[i], c, z, y);
          PokeCovers(elems[i], c, z, y);
          PokeRoot(elems[i], c, z, y);
        }
      }
    case ReplaceNode(x, _) =>
      PokeCovers(x, c, z, y);
      PokeRoot(x, c, z, y);
    case _ =>
  }

  lemma {:induction false} PokeFull(t: Tree, c: Tree, z: Place, y: Value)
    requires HasPlace(c, z) && Full(t)
    ensures Full(Poke(t, c, z, y))
  {
    match t
    case ObjNode(_, kids, _, _) =>
      forall k | k in kids ensures Full(Poke(kids[k], c, z, y)) {
        PokeFull(kids[k], c, z, y);
      }
    case ArrNode(_, elems, _, _) =>
      forall i: nat | i < |elems| ensures Full(Poke(elems[i], c, z, y)) {
        PokeFull(elems[i], c, z, y);
      }
    case ReplaceNode(x, _) => PokeFull(x, c, z, y);
    case _ =>
  }

  lemma {:induction false} PokeIn(t: Tree, c: Tree, z: Place, y: Value, w: World, w': World)
    requires In(t, w) && HasPlace(c, z) && Changed(c, z, y, w, w')
    ensures In(Poke(t, c, z, y), w')
  {
    match t
    case ObjNode(o, kids, _, _) =>
      forall k | k in kids ensures In(Poke(kids[k], c, z, y), w') && Root(Poke(kids[k], c, z, y)) == Root(kids[k]) {
        PokeIn(kids[k], c, z, y, w, w');
        PokeRoot(kids[k], c, z, y);
      }
      PokeObjectAgrees(t, c, z, y, w, w');
    case ArrNode(o, elems, _, _) =>
      forall i: nat | i < |elems|
        ensures In(Poke(elems[i], c, z, y), w') && Root(Poke(elems[i], c, z, y)) == Root(elems[i])
      {
        PokeIn(elems[i], c, z, y, w, w');
        PokeRoot(elems[i], c, z, y);
      }
      PokeArrayAgrees(t, c, z, y, w, w');
    case ReplaceNode(x, _) => PokeIn(x, c, z, y, w, w');
    case _ =>
  }

  lemma PokeObjectAgrees(t: Tree, c: Tree, z: Place, y: Value, w: World, w': World)
    requires t.ObjNode? && Agrees(t, w) && HasPlace(c, z) && Changed(c, z, y, w, w')
    requires forall k :: k in t.kids ==> Root(Poke(t.kids[k], c, z, y)) == Root(t.kids[k])
    ensures Agrees(Poke(t, c, z, y), w')
  {
    var poked := map k | k in t.kids :: Poke(t.kids[k], c, z, y);
    assert Roots(poked) == Roots(t.kids);
    if c.ObjNode? {
      assert Roots(poked[z.k := Leaf(y)]) == Roots(t.kids)[z.k := HLeaf(y)];
    }
  }

  lemma PokeArrayAgrees(t: Tree, c: Tree, z: Place, y: Value, w: World, w': World)
    requires t.ArrNode? && Agrees(t, w) && HasPlace(c, z) && Changed(c, z, y, w, w')
    requires forall i: nat :: i < |t.elems| ==> Root(Poke(t.elems[i], c, z, y)) == Root(t.elems[i])
    ensures Agrees(Poke(t, c, z, y), w')
  {
    var n := |t.elems|;
    var poked := seq(n, i requires 0 <= i < n => Poke(t.elems[i], c, z, y));
    assert RootSeq(poked) == RootSeq(t.elems);
    if c.ArrNode? && z.i < n {
      assert RootSeq(poked[z.i := Leaf(y)]) == RootSeq(t.elems)[z.i := HLeaf(y)];
    }
  }

  /** Nothing else is at a path that does not lead through the cell. */
  lemma {:induction false} PokeAt(t: Tree, c: Tree, z: Place, y: Value, q: Path)
    requires HasPlace(c, z) && At(t, q).Some?
    requires forall i: nat :: i < |q| ==> !CellAt(t, q[..i], CellOf(c))
    ensures At(Poke(t, c, z, y), q) == Some(Poke(At(t, q).value, c, z, y))
    decreases |q|
  {
    if q != [] {
      var sub := Sub(t, q[0]).value;
      assert !CellAt(t, q[..0], CellOf(c));
      assert Sub(Poke(t, c, z, y), q[0]) == Some(Poke(sub, c, z, y));
      forall i: nat | i < |q[1..]| ensures !CellAt(sub, q[1..][..i], CellOf(c)) {
        assert q[..i + 1][0] == q[0] && q[..i + 1][1..] == q[1..][..i];
        assert !CellAt(t, q[..i + 1], CellOf(c));
      }
      PokeAt(sub, c, z, y, q[1..]);
    }
  }

  lemma {:induction false} LookAt(t: Tree, path: Path)
    requires At(t, path).Some?
    ensures Look(Snapshot(t), path) == Some(Snapshot(At(t, path).value))
    decreases |path|
  {
    if path != [] {
      LookAt(Sub(t, path[0]).value, path[1..]);
    }
  }

  lemma {:induction false} LookConcat(v: Value, p: Path, q: Path)
    requires Look(v, p).Some?
    ensures Look(v, p + q) == Look(Look(v, p).value, q)
    decreases |p|
  {
    if p == [] {
      assert p + q == q;
    } else {
      assert (p + q)[0] == p[0] && (p + q)[1..] == p[1..] + q;
      match p[0]
      case Field(k) => LookConcat(v.fields[k], p[1..], q);
      case Item(i) => LookConcat(v.items[i], p[1..], q);
      case Inside => LookConcat(v.with, p[1..], q);
    }
  }

  lemma {:induction false} FitsAt(t: Tree, path: Path, z: Place)
    requires Reaches(t, path) && HasPlace(At(t, path).value, z)
    ensures Fits(Snapshot(t), path + [z])
    decreases |path|
  {
    if path == [] {
      assert (path + [z])[0] == z && (path + [z])[1..] == [];
    } else {
      assert (path + [z])[0] == path[0] && (path + [z])[1..] == path[1..] + [z];
      ReachesBelow(t, path);
      FitsAt(Sub(t, path[0]).value, path[1..], z);
    }
  }

  // ---------------------------------------------------------------------------------------
  // Destinations with a shared cell
  // ---------------------------------------------------------------------------------------

  /** Neither path goes on after the other one, because no cell is below itself. */
  lemma {:induction false} PathsDiverge(t: Tree, p: Path, q: Path, w: World)
    requires In(t, w) && Full(t) && SameCell(t, p, q) && p != q
    ensures Diverge(p, q)
    decreases |p|
  {
    if p == [] {
      Acyclic(t, q, w);
    } else if q == [] {
      Acyclic(t, p, w);
    } else if p[0] == q[0] {
      assert p == [p[0]] + p[1..] && q == [q[0]] + q[1..];
      PathsDiverge(Sub(t, p[0]).value, p[1..], q[1..], w);
    }
  }

  lemma {:induction false} DivergeLonger(p: Path, q: Path, a: Path, b: Path)
    requires Diverge(p, q)
    ensures Diverge(p + a, q + b)
    decreases |p|
  {
    assert (p + a)[1..] == p[1..] + a && (q + b)[1..] == q[1..] + b;
    if p[0] == q[0] {
      DivergeLonger(p[1..], q[1..], a, b);
    }
  }

  /** Before it comes to the cell at its end, a path does not lead through that cell. */
  lemma NotOnTheWay(t: Tree, q: Path, o: object, w: World, i: nat)
    requires In(t, w) && Full(t) && CellAt(t, q, o) && i < |q|
    ensures !CellAt(t, q[..i], o)
  {
    if CellAt(t, q[..i], o) {
      assert q == q[..i] + q[i..];
      AtConcat(t, q[..i], q[i..]);
      AtIn(t, q[..i], w);
      Acyclic(At(t, q[..i]).value, q[i..], w);
    }
  }

  /** One cell at two places has the same children at both. */
  lemma SameChildren(a: Tree, b: Tree, z: Place, w: World)
    requires In(a, w) && In(b, w) && Full(a) && Full(b) && IsNode(a) && IsNode(b) && CellOf(a) == CellOf(b)
    requires HasPlace(a, z)
    ensures a.ObjNode? == b.ObjNode? && HasPlace(b, z)
    ensures Sub(a, z).Some? <==> Sub(b, z).Some?
    ensures Sub(a, z).Some? ==> Root(Sub(a, z).value) == Root(Sub(b, z).value)
  {
    if a.ObjNode? {
      assert Roots(a.kids).Keys == a.kids.Keys && Roots(b.kids).Keys == b.kids.Keys;
      if z.k in a.kids {
        assert Roots(a.kids)[z.k] == Roots(b.kids)[z.k];
      }
    } else {
      assert |RootSeq(a.elems)| == |a.elems| && |RootSeq(b.elems)| == |b.elems|;
      assert RootSeq(a.elems)[z.i] == RootSeq(b.elems)[z.i];
    }
  }

  /** What is at the place is not y: the field is new, or the item another leaf. */
  ghost predicate IsNews(t: Tree, z: Place, y: Value) {
    HasPlace(t, z) && y.Scalar? && (Sub(t, z).Some? ==> Root(Sub(t, z).value) != HLeaf(y))
  }

  /** In the patched heap y is at the second place of the cell as well, and in the merge of the snapshots it is not. */
  lemma PatchedDiffers(d: Tree, p: Path, q: Path, z: Place, y: Value, w: World)
    requires In(d, w) && Full(d) && Covers(d) && IsOuter(p) && SameCell(d, p, q) && p != q
    requires IsNews(At(d, p).value, z, y)
    ensures Snapshot(Poke(d, At(d, p).value, z, y)) != Merge(Snapshot(d), PatchValue(p + [z], y))
  {
    var c, poked := At(d, p).value, Poke(d, At(d, p).value, z, y);
    PathsDiverge(d, p, q, w);
    DivergeLonger(p, q, [z], [z]);
    FitsAt(d, p, z);
    PatchElsewhere(Snapshot(d), p + [z], y, q + [z]);
    NoNewsElsewhere(d, p, q, z, y, w);
    NewsInHeap(d, p, q, z, y, w);
  }

  lemma NoNewsElsewhere(d: Tree, p: Path, q: Path, z: Place, y: Value, w: World)
    requires In(d, w) && Full(d) && SameCell(d, p, q) && IsNews(At(d, p).value, z, y)
    ensures Look(Snapshot(d), q + [z]) != Some(y)
  {
    var a, b := At(d, p).value, At(d, q).value;
    AtIn(d, p, w);
    AtIn(d, q, w);
    SameChildren(a, b, z, w);
    LookAt(d, q);
    LookConcat(Snapshot(d), q, [z]);
    assert [z][1..] == [];
    if Sub(b, z).Some? {
      LeafOnly(Sub(b, z).value, y);
    }
  }

  /** Only the leaf y itself stands for y. */
  lemma LeafOnly(t: Tree, y: Value)
    requires y.Scalar? && Full(t) && Root(t) != HLeaf(y)
    ensures Snapshot(t) != y
  {
  }

  lemma NewsInHeap(d: Tree, p: Path, q: Path, z: Place, y: Value, w: World)
    requires In(d, w) && Full(d) && SameCell(d, p, q) && IsNews(At(d, p).value, z, y)
    ensures Look(Snapshot(Poke(d, At(d, p).value, z, y)), q + [z]) == Some(y)
  {
    var a, b := At(d, p).value, At(d, q).value;
    var poked := Poke(d, a, z, y);
    AtIn(d, p, w);
    AtIn(d, q, w);
    SameChildren(a, b, z, w);
    forall i: nat | i < |q| ensures !CellAt(d, q[..i], CellOf(a)) {
      NotOnTheWay(d, q, CellOf(a), w, i);
    }
    PokeAt(d, a, z, y, q);
    LookAt(poked, q);
    LookConcat(Snapshot(poked), q, [z]);
    assert Sub(Poke(b, a, z, y), z) == Some(Leaf(y)) && [z][1..] == [];
  }

  /** The heap value at the path. */
  method Find(v: HeapValue, path: Path, ghost t: Tree) returns (r: HeapValue)
    requires Shows(t, v) && Reaches(t, path)
    ensures Shows(At(t, path).value, r)
    decreases |path|
  {
    if path == [] {
      return v;
    }
    ReachesBelow(t, path);
    var sub;
    match path[0] {
      case Field(k) => sub := v.obj.m[k];
      case Item(i) => sub := v.arr.a[i];
      case Inside =>
    }
    r := Find(sub, path[1..], Sub(t, path[0]).value);
  }

  method FreshKey(keys: set<string>) returns (k: string)
    ensures k !in keys
  {
    k := "";
    var rest := keys;
    while k in keys
      invariant rest <= keys && forall j :: j in keys && j !in rest ==> |j| < |k|
      decreases rest
    {
      assert k in rest;
      rest := rest - {k};
      k := k + "x";
    }
  }

  /** Something that is not yet in the cell. */
  method PickNews(v: HeapValue, ghost t: Tree) returns (z: Place, y: Value)
    requires Shows(t, v) && Full(t) && IsNode(t)
    ensures IsNews(t, z, y)
  {
    if v.HObj? {
      var k := FreshKey(v.obj.m.Keys);
      return Field(k), Scalar(0);
    }
    z := Item(0);
    y := if v.arr.a[0] == HLeaf(Scalar(0)) then Scalar(1) else Scalar(0);
  }

  lemma AlongReady(d: Tree, dst: HeapValue, p: Path)
    requires Shows(d, dst) && Full(d) && Reaches(d, p)
    ensures In(d, Capture(Footprint(d)))
    ensures var along := Along(d, p);
            Shows(along, dst) && Unshared(along) && Outer(along) == Footprint(along) <= Footprint(d)
  {
    var w, along := Capture(Footprint(d)), Along(d, p);
    ExactCovers(d);
    HoldsIsIn(d, Footprint(d));
    AlongShows(d, p, w);
    ExactCovers(along);
    HoldsIsIn(along, Footprint(d));
    AlongUnshared(d, p, w);
  }

  /** Apart from the given cells, the heap is still as the world says. */
  ghost predicate KeptOutside(w: World, cells: set<object>)
    reads w.objs.Keys, w.arrs.Keys
  {
    && (forall o :: o in w.objs && o !in cells ==> o.m == w.objs[o])
    && (forall o :: o in w.arrs && o !in cells ==> o.a == w.arrs[o])
  }

  lemma NothingChanged(cells: set<object>)
    ensures KeptOutside(Capture(cells), {})
  {
  }

  /** Merges a patch, seeing the destination along the path only. */
  method MergeAlong(dst: HeapValue, src: HeapValue, ghost d: Tree, ghost s: Tree, ghost p: Path, ghost z: Place, ghost y: Value)
    returns (ok: bool, r: HeapValue, ghost u: Tree)
    requires Shows(d, dst) && Full(d) && Reaches(d, p) && IsNews(At(d, p).value, z, y)
    requires Shows(s, src) && IsPatch(s, p + [z], y) && Footprint(s) !! Footprint(d)
    modifies Footprint(Along(d, p))
    ensures ok && r == dst && Shows(u, r) && MergesTo(Along(d, p), s, u) && Patched(d, u, p, z, y)
  {
    ghost var along := Along(d, p);
    AlongReady(d, dst, p);
    PatchSnapshot(s, p + [z], y);
    AlongOpened(d, p, z, s, y);
    PatchDoesNotPanic(Snapshot(along), p + [z], y);
    ok, r, u := MergeInPlace(dst, src, along, s);
    PatchEffect(d, p, z, s, y, u);
  }

  /** Builds the patch and merges it. */
  method MergePatch(dst: HeapValue, ghost d: Tree, p: Path, z: Place, y: Value, ghost w: World)
    returns (src: HeapValue, ghost s: Tree, ok: bool, r: HeapValue, ghost u: Tree)
    requires Shows(d, dst) && Full(d) && Reaches(d, p) && IsNews(At(d, p).value, z, y)
    requires KeptOutside(w, {})
    modifies Footprint(Along(d, p))
    ensures KeptOutside(w, Footprint(Along(d, p)))
    ensures Shows(s, src) && Full(s) && fresh(Footprint(s)) && Snapshot(s) == PatchValue(p + [z], y)
    ensures ok && r == dst && Shows(u, r) && MergesTo(Along(d, p), s, u) && Patched(d, u, p, z, y)
  {
    AlongReady(d, dst, p);
    src, s := BuildPatch(p + [z], y);
    PatchSnapshot(s, p + [z], y);
    assert KeptOutside(w, {}) && Shows(d, dst);
    ok, r, u := MergeAlong(dst, src, d, s, p, z, y);
  }

  /** Merges the patch, with the outcome for the whole destination. */
  method PatchWhole(dst: HeapValue, ghost d: Tree, p: Path, z: Place, y: Value)
    returns (src: HeapValue, ghost s: Tree, ok: bool, r: HeapValue, ghost t: Tree, ghost u: Tree)
    requires Shows(d, dst) && Full(d) && Reaches(d, p) && IsNews(At(d, p).value, z, y)
    modifies Footprint(d)
    ensures Shows(s, src) && Full(s) && fresh(Footprint(s)) && Snapshot(s) == PatchValue(p + [z], y)
    ensures ok && r == dst && Shows(u, r) && MergesTo(Along(d, p), s, u)
    ensures Shows(t, dst) && Full(t) && t == Poke(d, At(d, p).value, z, y)
  {
    ghost var w := Capture(Footprint(d));
    AlongReady(d, dst, p);
    NothingChanged(Footprint(d));
    src, s, ok, r, u := MergePatch(dst, d, p, z, y, w);
    t := Poke(d, At(d, p).value, z, y);
    PokeShows(d, dst, p, z, y, u, w);
    PokeFull(d, At(d, p).value, z, y);
  }

  lemma ReachedNode(d: Tree, dst: HeapValue, p: Path)
    requires Shows(d, dst) && Full(d) && Reaches(d, p)
    ensures In(d, Capture(Footprint(d))) && Full(At(d, p).value)
  {
    AlongReady(d, dst, p);
    AtIn(d, p, Capture(Footprint(d)));
  }

  /**
   Into a destination with a cell at two places, one of which merging can reach, there is a source apart from
   it that cannot be merged in place: neither merge panics, but the heap value does not show the merge of
   the snapshots.  What was merged is seen along the path in u; t describes the whole destination afterwards,
   with y at the place of the cell wherever that cell is.
   */
  method ExposeSharing(dst: HeapValue, ghost d: Tree, p: Path, ghost q: Path)
    returns (src: HeapValue, ghost s: Tree, ok: bool, r: HeapValue, ghost t: Tree, ghost u: Tree, z: Place, y: Value)
    requires Shows(d, dst) && Full(d) && IsOuter(p) && SameCell(d, p, q) && p != q
    modifies Footprint(d)
    ensures IsNews(At(d, p).value, z, y)
    ensures Shows(s, src) && Full(s) && fresh(Footprint(s)) && Snapshot(s) == PatchValue(p + [z], y)
    ensures !MergePanics(Snapshot(d), Snapshot(s)) && ok && r == dst && Shows(u, r) && MergesTo(Along(d, p), s, u)
    ensures Shows(t, dst) && Full(t) && t == Poke(d, At(d, p).value, z, y)
    ensures Snapshot(t) != Merge(Snapshot(d), Snapshot(s))
  {
    ReachedNode(d, dst, p);
    var cell := Find(dst, p, d);
    z, y := PickNews(cell, At(d, p).value);
    PatchDoesNotPanic(Snapshot(d), p + [z], y);
    PatchedDiffers(d, p, q, z, y, Capture(Footprint(d)));
    src, s, ok, r, t, u := PatchWhole(dst, d, p, z, y);
  }

  /** What the heap value shows after the merge of the patch. */
  lemma PokeShows(d: Tree, dst: HeapValue, p: Path, z: Place, y: Value, u: Tree, w: World)
    requires Root(d) == dst && Covers(d) && In(d, w) && Full(d) && Reaches(d, p) && IsNews(At(d, p).value, z, y)
    requires Covers(u) && Holds(u) && Patched(d, u, p, z, y)
    requires forall o: ObjCell :: o in w.objs <==> o in Footprint(d)
    requires forall o: ArrCell :: o in w.arrs <==> o in Footprint(d)
    requires KeptOutside(w, Footprint(Along(d, p)))
    ensures Shows(Poke(d, At(d, p).value, z, y), dst)
  {
    var c, cells := At(d, p).value, Footprint(d) + Footprint(u);
    var t, w' := Poke(d, c, z, y), Capture(cells);
    ExactCovers(u);
    HoldsIsIn(u, cells);
    ContentsChange(d, p, z, y, u, w, w');
    PokeCovers(d, c, z, y);
    PokeRoot(d, c, z, y);
    PokeIn(d, c, z, y, w, w');
    ExactCovers(t);
    HoldsIsIn(t, cells);
  }

  /** Nothing but the cell at the path changes: the other cells along it keep their contents. */
  lemma ContentsChange(d: Tree, p: Path, z: Place, y: Value, u: Tree, w: World, w': World)
    requires In(d, w) && In(u, w') && Full(d) && Reaches(d, p) && HasPlace(At(d, p).value, z) && Patched(d, u, p, z, y)
    requires forall o :: o in w.objs && o !in Footprint(Along(d, p)) ==> o in w'.objs && w'.objs[o] == w.objs[o]
    requires forall o :: o in w.arrs && o !in Footprint(Along(d, p)) ==> o in w'.arrs && w'.arrs[o] == w.arrs[o]
    ensures Changed(At(d, p).value, z, y, w, w')
  {
    var c := At(d, p).value;
    PathContents(d, u, p, z, y, w, w', |p|);
    forall o | o in w.objs && !(c.ObjNode? && o == c.obj) ensures o in w'.objs && w'.objs[o] == w.objs[o] {
      if o in Footprint(Along(d, p)) {
        var i := AlongCells(d, p, o);
        PathContents(d, u, p, z, y, w, w', i);
        assert p[..|p|] == p;
      }
    }
    forall o | o in w.arrs && !(c.ArrNode? && o == c.arr) ensures o in w'.arrs && w'.arrs[o] == w.arrs[o] {
      if o in Footprint(Along(d, p)) {
        var i := AlongCells(d, p, o);
        PathContents(d, u, p, z, y, w, w', i);
        assert p[..|p|] == p;
      }
    }
  }
}
