/**
 In-place merging of JSON values on the heap.

 JSON objects and arrays are cells that merging updates; an empty array has no cell, and appending makes
 a new one.  A Tree describes what a heap value looks like at one moment: which cell every node is, and
 what is below it.  Its footprint contains all of its cells, and its outer cells are those that merging
 into it can reach, which never looks into a Replace.  Its snapshot is the value it stands for.  One cell
 may be at several places of a tree.  The handlers are Keep and Replace.
 */
module JsonHeap {
  import opened Json
  import opened Sequences
  import JsonLaws

  class ObjCell {
    var m: map<string, HeapValue>

    constructor (m: map<string, HeapValue>)
      ensures this.m == m
    {
      this.m := m;
    }
  }

  class ArrCell {
    var a: seq<HeapValue>

    constructor (a: seq<HeapValue>)
      ensures this.a == a
    {
      this.a := a;
    }
  }

  datatype HeapValue = HLeaf(v: Value) | HObj(obj: ObjCell) | HArr(arr: ArrCell) | HReplace(with: HeapValue)

  /** An unseen value is one that the tree does not describe. */
  datatype Tree =
    | Leaf(v: Value)
    | Unseen(value: HeapValue)
    | ObjNode(obj: ObjCell, kids: map<string, Tree>, cells: set<object>, outer: set<object>)
    | ArrNode(arr: ArrCell, elems: seq<Tree>, cells: set<object>, outer: set<object>)
    | ReplaceNode(with: Tree, cells: set<object>)

  const EMPTY := Arr([])

  ghost function Root(t: Tree): HeapValue {
    match t
    case Leaf(v) => HLeaf(v)
    case Unseen(v) => v
    case ObjNode(c, _, _, _) => HObj(c)
    case ArrNode(c, _, _, _) => HArr(c)
    case ReplaceNode(w, _) => HReplace(Root(w))
  }

  ghost function Footprint(t: Tree): set<object> {
    if t.Leaf? || t.Unseen? then {} else t.cells
  }

  ghost function Outer(t: Tree): set<object> {
    if t.ObjNode? || t.ArrNode? then t.outer else {}
  }

  ghost function Snapshot(t: Tree): Value {
    match t
    case Leaf(v) => v
    case Unseen(_) => Null
    case ObjNode(_, kids, _, _) => Obj(map k | k in kids :: Snapshot(kids[k]))
    case ArrNode(_, elems, _, _) => Arr(seq(|elems|, i requires 0 <= i < |elems| => Snapshot(elems[i])))
    case ReplaceNode(w, _) => Replace(Snapshot(w))
  }

  /** Every cell is in the footprint, and leaves are leaves. */
  ghost predicate Covers(t: Tree) {
    match t
    case Leaf(v) => (IsContainer(v) ==> v == EMPTY) && !v.Replace? && !v.Strategic?
    case Unseen(_) => true
    case ObjNode(c, kids, cells, outer) =>
      && c in outer && outer <= cells
      && (forall k :: k in kids ==> Covers(kids[k]) && Footprint(kids[k]) <= cells && Outer(kids[k]) <= outer)
    case ArrNode(c, elems, cells, outer) =>
      && c in outer && outer <= cells && elems != []
      && (forall i: nat :: i < |elems| ==>
            Covers(elems[i]) && Footprint(elems[i]) <= cells && Outer(elems[i]) <= outer)
    case ReplaceNode(w, cells) => Covers(w) && Footprint(w) <= cells
  }

  /** No outer cell is at a second place of the tree. */
  ghost predicate Unshared(t: Tree) {
    match t
    case ObjNode(c, kids, _, _) =>
      && (forall k :: k in kids ==> Unshared(kids[k]) && c !in Footprint(kids[k]))
      && (forall k, k' :: k in kids && k' in kids && k != k' ==> Outer(kids[k]) !! Footprint(kids[k']))
    case ArrNode(c, elems, _, _) =>
      && (forall i: nat :: i < |elems| ==> Unshared(elems[i]) && c !in Footprint(elems[i]))
      && (forall i: nat, j: nat :: i < |elems| && j < |elems| && i != j ==> Outer(elems[i]) !! Footprint(elems[j]))
    case _ => true
  }

  /** The heap looks like the tree. */
  ghost predicate Holds(t: Tree)
    requires Covers(t)
    reads Footprint(t)
    decreases t
  {
    match t
    case Leaf(_) => true
    case Unseen(_) => true
    case ObjNode(c, kids, _, _) =>
      && c.m.Keys == kids.Keys
      && (forall k :: k in kids ==> c.m[k] == Root(kids[k]) && Holds(kids[k]))
    case ArrNode(c, elems, _, _) =>
      && |c.a| == |elems|
      && (forall i: nat :: i < |elems| ==> c.a[i] == Root(elems[i]) && Holds(elems[i]))
    case ReplaceNode(w, _) => Holds(w)
  }

  ghost predicate Shows(t: Tree, v: HeapValue)
    reads Footprint(t)
  {
    Root(t) == v && Covers(t) && Holds(t)
  }

  /** The tree describes everything. */
  ghost predicate Full(t: Tree) {
    match t
    case Leaf(_) => true
    case Unseen(_) => false
    case ObjNode(_, kids, _, _) => forall k :: k in kids ==> Full(kids[k])
    case ArrNode(_, elems, _, _) => forall i: nat :: i < |elems| ==> Full(elems[i])
    case ReplaceNode(w, _) => Full(w)
  }

  /** What one reads from a heap value, without a tree: the cells hold the fields and items of x. */
  ghost predicate Reads(v: HeapValue, x: Value, cells: set<object>)
    reads cells
    decreases x
  {
    match v
    case HLeaf(w) => x == w
    case HObj(c) =>
      && c in cells && x.Obj? && c.m.Keys == x.fields.Keys
      && forall k :: k in x.fields ==> Reads(c.m[k], x.fields[k], cells)
    case HArr(c) =>
      && c in cells && x.Arr? && |c.a| == |x.items|
      && forall i: nat :: i < |x.items| ==> Reads(c.a[i], x.items[i], cells)
    case HReplace(w) => x.Replace? && Reads(w, x.with, cells)
  }

  lemma {:induction false} ReadsOne(v: HeapValue, x: Value, y: Value, cells: set<object>)
    requires Reads(v, x, cells) && Reads(v, y, cells)
    ensures x == y
    decreases x
  {
    match v
    case HLeaf(_) =>
    case HObj(c) =>
      forall k | k in x.fields ensures x.fields[k] == y.fields[k] {
        ReadsOne(c.m[k], x.fields[k], y.fields[k], cells);
      }
      assert x.fields == y.fields;
    case HArr(c) =>
      forall i: nat | i < |x.items| ensures x.items[i] == y.items[i] {
        ReadsOne(c.a[i], x.items[i], y.items[i], cells);
      }
      assert x.items == y.items;
    case HReplace(w) => ReadsOne(w, x.with, y.with, cells);
  }

  lemma {:induction false} ReadsMore(t: Tree, cells: set<object>)
    requires Covers(t) && Holds(t) && Full(t) && Footprint(t) <= cells
    ensures Reads(Root(t), Snapshot(t), cells)
    decreases t
  {
    match t
    case Leaf(_) =>
    case ObjNode(c, kids, _, _) =>
      forall k | k in kids ensures Reads(c.m[k], Snapshot(kids[k]), cells) {
        ReadsMore(kids[k], cells);
      }
    case ArrNode(c, elems, _, _) =>
      forall i: nat | i < |elems| ensures Reads(c.a[i], Snapshot(elems[i]), cells) {
        ReadsMore(elems[i], cells);
      }
    case ReplaceNode(w, _) => ReadsMore(w, cells);
  }

  /** The snapshot of a full tree that a heap value shows is the one value that can be read from it. */
  lemma SnapshotIsRead(t: Tree, v: HeapValue, x: Value)
    requires Shows(t, v) && Full(t)
    ensures Reads(v, x, Footprint(t)) <==> x == Snapshot(t)
  {
    ReadsMore(t, Footprint(t));
    if Reads(v, x, Footprint(t)) {
      ReadsOne(v, x, Snapshot(t), Footprint(t));
    }
  }

  /** What s is merged into is described by d, except where merging does not look at it. */
  ghost predicate Opened(d: Tree, s: Tree)
    decreases s
  {
    && !s.Unseen? && (d.Unseen? ==> s.Leaf? && s.v != EMPTY)
    && match s
       case ObjNode(_, kids, _, _) =>
         d.ObjNode? ==> forall k :: k in kids && k in d.kids ==> Opened(d.kids[k], kids[k])
       case ArrNode(_, elems, _, _) =>
         d.ArrNode? ==> forall i: nat :: i < |elems| && i < |d.elems| ==> Opened(d.elems[i], elems[i])
       case ReplaceNode(w, _) => !w.Unseen?
       case _ => true
  }

  lemma {:induction false} FullIsOpened(d: Tree, s: Tree)
    requires Full(d) && Full(s)
    ensures Opened(d, s)
    decreases s
  {
    match s
    case ObjNode(_, kids, _, _) =>
      if d.ObjNode? {
        forall k | k in kids && k in d.kids ensures Opened(d.kids[k], kids[k]) {
          FullIsOpened(d.kids[k], kids[k]);
        }
      }
    case ArrNode(_, elems, _, _) =>
      if d.ArrNode? {
        forall i: nat | i < |elems| && i < |d.elems| ensures Opened(d.elems[i], elems[i]) {
          FullIsOpened(d.elems[i], elems[i]);
        }
      }
    case _ =>
  }

  // ---------------------------------------------------------------------------------------
  // What merging leaves behind
  // ---------------------------------------------------------------------------------------

  function Max(a: nat, b: nat): nat {
    if a < b then b else a
  }

  predicate IsArr(t: Tree) {
    t.ArrNode? || t == Leaf(EMPTY)
  }

  /** Merging s into d in place turns it into t: an object is the same cell, and so is an array that does not grow. */
  ghost predicate MergesTo(d: Tree, s: Tree, t: Tree)
    decreases s, 1
  {
    match s
    case Leaf(v) => t == if v.Keep? || (v == EMPTY && IsArr(d)) then d else s
    case Unseen(_) => t == s
    case ReplaceNode(w, _) => t == w
    case ObjNode(_, kids, _, _) =>
      if !d.ObjNode? then t == s
      else
        && t.ObjNode? && t.obj == d.obj && t.kids.Keys == d.kids.Keys + kids.Keys
        && forall k :: k in t.kids ==> FieldMergesTo(d, s, k, t.kids[k])
    case ArrNode(_, elems, _, _) =>
      if d == Leaf(EMPTY) then t.ArrNode? && t.elems == elems
      else if !d.ArrNode? then t == s
      else
        && t.ArrNode? && |t.elems| == Max(|d.elems|, |elems|) && (|elems| <= |d.elems| ==> t.arr == d.arr)
        && forall i: nat :: i < |t.elems| ==> ElemMergesTo(d, s, i, t.elems[i])
  }

  ghost predicate FieldMergesTo(d: Tree, s: Tree, k: string, kid: Tree)
    requires d.ObjNode? && s.ObjNode?
    decreases s, 0
  {
    if k !in s.kids then k in d.kids && kid == d.kids[k]
    else if k !in d.kids then kid == s.kids[k]
    else MergesTo(d.kids[k], s.kids[k], kid)
  }

  ghost predicate ElemMergesTo(d: Tree, s: Tree, i: nat, elem: Tree)
    requires d.ArrNode? && s.ArrNode?
    decreases s, 0
  {
    if i >= |s.elems| then i < |d.elems| && elem == d.elems[i]
    else if i >= |d.elems| then elem == s.elems[i]
    else MergesTo(d.elems[i], s.elems[i], elem)
  }

  /** What merging leaves behind stands for the merge of the values. */
  lemma {:induction false} MergesToSnapshot(d: Tree, s: Tree, t: Tree)
    requires Covers(d) && Covers(s) && Opened(d, s) && MergesTo(d, s, t)
    ensures Snapshot(t) == Merge(Snapshot(d), Snapshot(s))
    decreases s
  {
    match s
    case ObjNode(_, kids, _, _) =>
      if d.ObjNode? {
        forall k | k in kids && k in d.kids
          ensures Snapshot(t.kids[k]) == Merge(Snapshot(d.kids[k]), Snapshot(kids[k]))
        {
          assert FieldMergesTo(d, s, k, t.kids[k]);
          MergesToSnapshot(d.kids[k], kids[k], t.kids[k]);
        }
        FieldsMergeToSnapshot(d, s, t);
      }
    case ArrNode(_, elems, _, _) =>
      if d.ArrNode? {
        forall i: nat | i < |elems| && i < |d.elems|
          ensures Snapshot(t.elems[i]) == Merge(Snapshot(d.elems[i]), Snapshot(elems[i]))
        {
          assert ElemMergesTo(d, s, i, t.elems[i]);
          MergesToSnapshot(d.elems[i], elems[i], t.elems[i]);
        }
        ElemsMergeToSnapshot(d, s, t);
      } else if d == Leaf(EMPTY) {
        JsonLaws.MergeArrays(Snapshot(d), Snapshot(s));
        assert Snapshot(t).items == Merge(Snapshot(d), Snapshot(s)).items;
      }
    case Leaf(v) =>
      if v == EMPTY && IsArr(d) {
        JsonLaws.MergeArrays(Snapshot(d), v);
        assert Snapshot(d).items == Merge(Snapshot(d), v).items;
      }
    case _ =>
  }

  lemma FieldsMergeToSnapshot(d: Tree, s: Tree, t: Tree)
    requires d.ObjNode? && s.ObjNode? && MergesTo(d, s, t)
    requires forall k :: k in s.kids && k in d.kids ==>
               Snapshot(t.kids[k]) == Merge(Snapshot(d.kids[k]), Snapshot(s.kids[k]))
    ensures Snapshot(t) == Merge(Snapshot(d), Snapshot(s))
  {
    JsonLaws.MergeObjects(Snapshot(d), Snapshot(s));
    var fields, merged := Snapshot(t).fields, Merge(Snapshot(d), Snapshot(s)).fields;
    forall k | k in fields ensures fields[k] == merged[k] {
      assert FieldMergesTo(d, s, k, t.kids[k]);
    }
    assert fields == merged;
  }

  lemma ElemsMergeToSnapshot(d: Tree, s: Tree, t: Tree)
    requires d.ArrNode? && s.ArrNode? && MergesTo(d, s, t)
    requires forall i: nat :: i < |s.elems| && i < |d.elems| ==>
               Snapshot(t.elems[i]) == Merge(Snapshot(d.elems[i]), Snapshot(s.elems[i]))
    ensures Snapshot(t) == Merge(Snapshot(d), Snapshot(s))
  {
    JsonLaws.MergeArrays(Snapshot(d), Snapshot(s));
    var items, merged := Snapshot(t).items, Merge(Snapshot(d), Snapshot(s)).items;
    forall i: nat | i < |items| ensures items[i] == merged[i] {
      assert ElemMergesTo(d, s, i, t.elems[i]);
    }
    assert items == merged;
  }

  lemma {:induction false} MergesToFull(d: Tree, s: Tree, t: Tree)
    requires Full(d) && Full(s) && MergesTo(d, s, t)
    ensures Full(t)
    decreases s
  {
    match s
    case ObjNode(_, kids, _, _) =>
      if d.ObjNode? {
        forall k | k in t.kids ensures Full(t.kids[k]) {
          assert FieldMergesTo(d, s, k, t.kids[k]);
          if k in kids && k in d.kids {
            MergesToFull(d.kids[k], kids[k], t.kids[k]);
          }
        }
      }
    case ArrNode(_, elems, _, _) =>
      if d.ArrNode? {
        forall i: nat | i < |t.elems| ensures Full(t.elems[i]) {
          assert ElemMergesTo(d, s, i, t.elems[i]);
          if i < |elems| && i < |d.elems| {
            MergesToFull(d.elems[i], elems[i], t.elems[i]);
          }
        }
      }
    case _ =>
  }

  predicate HoldsHandler(v: HeapValue) {
    v.HReplace? || (v.HLeaf? && v.v.Keep?)
  }

  lemma HandlerSnapshot(t: Tree)
    requires Covers(t) && !t.Unseen?
    ensures IsHandler(Snapshot(t)) <==> HoldsHandler(Root(t))
    ensures Snapshot(t).Null? <==> Root(t) == HLeaf(Null)
  {
  }

  /**
   merge: updates the outer cells of dst only, each of which must be at one place only and not in src.  The
   cells of src, and those below handlers of dst, may be shared.
   */
  method MergeInPlace(dst: HeapValue, src: HeapValue, ghost d: Tree, ghost s: Tree)
    returns (ok: bool, r: HeapValue, ghost t: Tree)
    requires Shows(d, dst) && Unshared(d) && Shows(s, src) && Opened(d, s) && Outer(d) !! Footprint(s)
    modifies Outer(d)
    ensures ok <==> !MergePanics(Snapshot(d), Snapshot(s))
    ensures ok ==>
              && Shows(t, r) && MergesTo(d, s, t) && Snapshot(t) == Merge(Snapshot(d), Snapshot(s))
              && fresh(Footprint(t) - Footprint(d) - Footprint(s))
    decreases s, 1
  {
    ok, r, t := true, src, s;
    match src {
      case HObj(_) =>
        if dst.HObj? {
          ok, t := MergeObj(dst.obj, src.obj, d, s);
          r := dst;
        }
      case HArr(_) =>
        if dst.HArr? {
          ok, r, t := MergeArr(dst.arr, src.arr, d, s);
        } else if dst == HLeaf(EMPTY) {
          var grown := new ArrCell(src.arr.a);
          r, t := HArr(grown), ArrNode(grown, s.elems, {grown} + s.cells, {grown} + s.cells);
        }
      case HLeaf(v) =>
        if v.Keep? || (v == EMPTY && (dst.HArr? || dst == HLeaf(EMPTY))) {
          r, t := dst, d;
        }
      case HReplace(with) =>
        HandlerSnapshot(d);
        HandlerSnapshot(s.with);
        ok := !(dst.HLeaf? && dst.v.Null? && HoldsHandler(with));
        r, t := with, s.with;
    }
    if ok {
      MergesToSnapshot(d, s, t);
    }
  }

  // ---------------------------------------------------------------------------------------
  // Objects
  // ---------------------------------------------------------------------------------------

  ghost function FieldCells(d: Tree, k: string): set<object>
    requires d.ObjNode?
  {
    if k in d.kids then Footprint(d.kids[k]) else {}
  }

  ghost function OuterField(d: Tree, k: string): set<object>
    requires d.ObjNode?
  {
    if k in d.kids then Outer(d.kids[k]) else {}
  }

  ghost predicate KidPanics(d: Tree, s: Tree, k: string)
    requires d.ObjNode? && s.ObjNode? && k in s.kids
  {
    k in d.kids && MergePanics(Snapshot(d.kids[k]), Snapshot(s.kids[k]))
  }

  /** The fields after those in done were merged. */
  ghost predicate FieldsMerged(kids: map<string, Tree>, d: Tree, s: Tree, done: set<string>)
    requires d.ObjNode? && s.ObjNode?
  {
    && done <= s.kids.Keys
    && kids.Keys == d.kids.Keys + done
    && (forall k :: k in done ==> !KidPanics(d, s, k) && FieldMergesTo(d, s, k, kids[k]))
    && forall k :: k in kids && k !in done ==> kids[k] == d.kids[k]
  }

  /** Where the cells of the fields come from. */
  ghost predicate Bounded(kids: map<string, Tree>, d: Tree, s: Tree, more: set<object>)
    requires d.ObjNode? && s.ObjNode?
  {
    forall k :: k in kids ==> Covers(kids[k]) && Footprint(kids[k]) <= FieldCells(d, k) + s.cells + more
  }

  /** The destination of a merge under way, after the fields in done. */
  ghost predicate Merging(kids: map<string, Tree>, d: Tree, s: Tree, done: set<string>, more: set<object>)
    requires d.ObjNode? && s.ObjNode?
    reads d.cells, s.cells, more
  {
    && FieldsMerged(kids, d, s, done) && Bounded(kids, d, s, more) && more !! d.cells
    && Covers(Assembled(kids, d, s, more)) && Holds(Assembled(kids, d, s, more))
  }

  ghost function Assembled(kids: map<string, Tree>, d: Tree, s: Tree, more: set<object>): Tree
    requires d.ObjNode? && s.ObjNode?
  {
    ObjNode(d.obj, kids, d.cells + s.cells + more, d.cells + s.cells + more)
  }

  lemma BoundedCovers(kids: map<string, Tree>, d: Tree, s: Tree, more: set<object>)
    requires d.ObjNode? && s.ObjNode? && Covers(d) && Covers(s) && Bounded(kids, d, s, more)
    ensures Covers(Assembled(kids, d, s, more))
  {
    var cells := d.cells + s.cells + more;
    forall k | k in kids ensures Covers(kids[k]) && Footprint(kids[k]) <= cells && Outer(kids[k]) <= cells {
      OuterInFootprint(kids[k]);
    }
  }

  lemma OuterInFootprint(t: Tree)
    requires Covers(t)
    ensures Outer(t) <= Footprint(t)
  {
  }

  lemma FieldsDoNotPanic(d: Tree, s: Tree)
    requires d.ObjNode? && s.ObjNode? && forall k :: k in s.kids ==> !KidPanics(d, s, k)
    ensures !MergePanics(Snapshot(d), Snapshot(s))
  {
    forall k | k in d.kids && k in s.kids ensures !MergePanics(Snapshot(d.kids[k]), Snapshot(s.kids[k])) {
      assert !KidPanics(d, s, k);
    }
  }

  lemma FieldPanics(d: Tree, s: Tree, k: string)
    requires d.ObjNode? && s.ObjNode? && k in s.kids && KidPanics(d, s, k)
    ensures MergePanics(Snapshot(d), Snapshot(s))
  {
    assert k in Snapshot(d).fields && k in Snapshot(s).fields;
  }

  /** The object's fields other than k show the kids other than k. */
  ghost predicate OthersShown(dst: ObjCell, kids: map<string, Tree>, cells: set<object>, k: string)
    reads dst, cells
  {
    && dst.m.Keys == kids.Keys
    && forall k' :: k' in kids && k' != k ==>
         && Covers(kids[k']) && Footprint(kids[k']) <= cells
         && dst.m[k'] == Root(kids[k']) && Holds(kids[k'])
  }

  /** The cells below the object that merging field k does not write. */
  ghost function OtherCells(d: Tree, s: Tree, more: set<object>, k: string): set<object>
    requires d.ObjNode? && s.ObjNode?
  {
    d.cells + s.cells + more - {d.obj} - OuterField(d, k)
  }

  lemma OthersInside(kids: map<string, Tree>, d: Tree, s: Tree, more: set<object>, k: string)
    requires d.ObjNode? && s.ObjNode? && Covers(d) && Unshared(d) && Covers(s)
    requires d.outer !! s.cells && more !! d.cells && Bounded(kids, d, s, more)
    ensures forall k' :: k' in kids && k' != k ==> Footprint(kids[k']) <= OtherCells(d, s, more, k)
  {
    forall k' | k' in kids && k' != k ensures Footprint(kids[k']) <= OtherCells(d, s, more, k) {
      assert k' in d.kids && k in d.kids ==> Outer(d.kids[k]) !! Footprint(d.kids[k']);
      assert OuterField(d, k) <= d.outer <= d.cells;
    }
  }

  /** The new value of field k; the object itself is not updated yet. */
  method MergeKid(dst: ObjCell, src: ObjCell, k: string, ghost d: Tree, ghost s: Tree)
    returns (ok: bool, v: HeapValue, ghost kid: Tree)
    requires Root(d) == HObj(dst) && Covers(d) && Unshared(d) && Shows(s, HObj(src)) && Opened(d, s)
    requires Outer(d) !! Footprint(s)
    requires k in s.kids && (k in dst.m <==> k in d.kids)
    requires k in d.kids ==> dst.m[k] == Root(d.kids[k]) && Holds(d.kids[k])
    modifies OuterField(d, k)
    ensures ok <==> !KidPanics(d, s, k)
    ensures ok ==>
              && FieldMergesTo(d, s, k, kid) && Shows(kid, v)
              && fresh(Footprint(kid) - FieldCells(d, k) - s.cells)
    decreases s, 0, 0
  {
    if k in dst.m {
      ok, v, kid := MergeInPlace(dst.m[k], src.m[k], d.kids[k], s.kids[k]);
    } else {
      ok, v, kid := true, src.m[k], s.kids[k];
    }
  }

  lemma FieldsMergedStep(kids: map<string, Tree>, d: Tree, s: Tree, done: set<string>, k: string, kid: Tree)
    requires d.ObjNode? && s.ObjNode? && FieldsMerged(kids, d, s, done)
    requires k in s.kids && !KidPanics(d, s, k) && FieldMergesTo(d, s, k, kid)
    ensures FieldsMerged(kids[k := kid], d, s, done + {k})
  {
    var more := kids[k := kid];
    assert more.Keys == d.kids.Keys + (done + {k});
    forall k' | k' in done + {k} ensures !KidPanics(d, s, k') && FieldMergesTo(d, s, k', more[k']) {
      assert k' != k ==> k' in done && more[k'] == kids[k'];
    }
  }

  lemma BoundedStep(kids: map<string, Tree>, d: Tree, s: Tree, k: string, kid: Tree, more: set<object>)
    requires d.ObjNode? && s.ObjNode? && Bounded(kids, d, s, more) && Covers(kid)
    ensures Bounded(kids[k := kid], d, s, more + (Footprint(kid) - FieldCells(d, k) - s.cells))
  {
    var kids', more' := kids[k := kid], more + (Footprint(kid) - FieldCells(d, k) - s.cells);
    forall k' | k' in kids' ensures Covers(kids'[k']) && Footprint(kids'[k']) <= FieldCells(d, k') + s.cells + more' {
      assert k' != k ==> kids'[k'] == kids[k'];
    }
  }

  method StoreKid(dst: ObjCell, k: string, v: HeapValue, ghost kid: Tree, ghost kids: map<string, Tree>,
                  ghost others: set<object>, ghost t: Tree)
    requires Shows(kid, v) && dst !in Footprint(kid)
    requires OthersShown(dst, kids, others, k) && dst !in others
    requires t.ObjNode? && t.obj == dst && t.kids == kids[k := kid] && Covers(t)
    modifies dst
    ensures Holds(t)
  {
    dst.m := dst.m[k := v];
  }

  /** One round of the loop over the source's keys, which come in any order. */
  method MergeField(dst: ObjCell, src: ObjCell, k: string, ghost d: Tree, ghost s: Tree,
                    ghost kids: map<string, Tree>, ghost done: set<string>, ghost more: set<object>)
    returns (ok: bool, ghost kids': map<string, Tree>, ghost more': set<object>)
    requires Root(d) == HObj(dst) && Covers(d) && Unshared(d) && Shows(s, HObj(src)) && Opened(d, s)
    requires Outer(d) !! Footprint(s) && Merging(kids, d, s, done, more)
    requires k in s.kids && k !in done
    modifies Outer(d)
    ensures ok <==> !KidPanics(d, s, k)
    ensures more <= more' && fresh(more' - more)
    ensures ok ==> Merging(kids', d, s, done + {k}, more')
    decreases s, 0, 1
  {
    OthersInside(kids, d, s, more, k);
    ghost var others := OtherCells(d, s, more, k);
    assert OthersShown(dst, kids, others, k);
    var v: HeapValue;
    ghost var kid: Tree;
    ok, v, kid := MergeKid(dst, src, k, d, s);
    kids', more' := kids, more;
    if ok {
      assert OthersShown(dst, kids, others, k);
      kids' := kids[k := kid];
      more' := more + (Footprint(kid) - FieldCells(d, k) - s.cells);
      FieldsMergedStep(kids, d, s, done, k, kid);
      BoundedStep(kids, d, s, k, kid, more);
      BoundedCovers(kids', d, s, more');
      StoreKid(dst, k, v, kid, kids, others, Assembled(kids', d, s, more'));
    }
  }

  lemma MergeBegins(d: Tree, s: Tree)
    requires d.ObjNode? && s.ObjNode? && Covers(d) && Covers(s) && Holds(d)
    ensures Merging(d.kids, d, s, {}, {})
  {
    BoundedCovers(d.kids, d, s, {});
  }

  /** The merge under way, with the keys of the source that are left. */
  ghost predicate MergingAt(kids: map<string, Tree>, d: Tree, s: Tree, more: set<object>, done: set<string>, rest: set<string>)
    requires d.ObjNode? && s.ObjNode?
    reads d.cells, s.cells, more
  {
    done !! rest && done + rest == s.kids.Keys && Merging(kids, d, s, done, more)
  }

  /** mergeObj's loop; it ends as soon as the merge of one field panics. */
  method MergeFieldsInPlace(dst: ObjCell, src: ObjCell, ghost d: Tree, ghost s: Tree)
    returns (ok: bool, ghost kids: map<string, Tree>, ghost more: set<object>)
    requires Shows(d, HObj(dst)) && Unshared(d) && Shows(s, HObj(src)) && Opened(d, s) && Outer(d) !! Footprint(s)
    modifies Outer(d)
    ensures !ok ==> exists k :: k in s.kids && KidPanics(d, s, k)
    ensures ok ==> fresh(more) && Merging(kids, d, s, s.kids.Keys, more)
    decreases s, 0, 2
  {
    var rest := src.m.Keys;
    ghost var done: set<string> := {};
    kids, more := d.kids, {};
    MergeBegins(d, s);
    while rest != {}
      invariant Holds(s) && fresh(more) && MergingAt(kids, d, s, more, done, rest)
      decreases rest
    {
      var k :| k in rest;
      ok, kids, more := MergeField(dst, src, k, d, s, kids, done, more);
      if !ok {
        return false, kids, more;
      }
      rest, done := rest - {k}, done + {k};
    }
    assert done == s.kids.Keys;
    ok := true;
  }

  /** mergeObj on two objects. */
  method MergeObj(dst: ObjCell, src: ObjCell, ghost d: Tree, ghost s: Tree) returns (ok: bool, ghost t: Tree)
    requires Shows(d, HObj(dst)) && Unshared(d) && Shows(s, HObj(src)) && Opened(d, s) && Outer(d) !! Footprint(s)
    modifies Outer(d)
    ensures ok <==> !MergePanics(Snapshot(d), Snapshot(s))
    ensures ok ==> Shows(t, HObj(dst)) && MergesTo(d, s, t) && fresh(Footprint(t) - Footprint(d) - Footprint(s))
    decreases s, 0, 3
  {
    ghost var kids: map<string, Tree>;
    ghost var more: set<object>;
    ok, kids, more := MergeFieldsInPlace(dst, src, d, s);
    t := Assembled(kids, d, s, more);
    if ok {
      FieldsDoNotPanic(d, s);
      forall k | k in kids ensures FieldMergesTo(d, s, k, kids[k]) {
      }
    } else {
      ghost var k :| k in s.kids && KidPanics(d, s, k);
      FieldPanics(d, s, k);
    }
  }

  // ---------------------------------------------------------------------------------------
  // Arrays
  // ---------------------------------------------------------------------------------------

  ghost predicate ElemPanics(d: Tree, s: Tree, i: nat)
    requires d.ArrNode? && s.ArrNode? && i < |d.elems| && i < |s.elems|
  {
    MergePanics(Snapshot(d.elems[i]), Snapshot(s.elems[i]))
  }

  /** The elements after the first done indices were merged. */
  ghost predicate ElemsMerged(elems: seq<Tree>, d: Tree, s: Tree, done: nat)
    requires d.ArrNode? && s.ArrNode?
  {
    && |elems| == |d.elems| && done <= |d.elems| && done <= |s.elems|
    && (forall i: nat :: i < done ==> !ElemPanics(d, s, i) && ElemMergesTo(d, s, i, elems[i]))
    && forall i: nat :: done <= i < |elems| ==> elems[i] == d.elems[i]
  }

  ghost predicate ElemsBounded(elems: seq<Tree>, d: Tree, s: Tree, more: set<object>)
    requires d.ArrNode? && s.ArrNode? && |elems| == |d.elems|
  {
    forall i: nat :: i < |elems| ==> Covers(elems[i]) && Footprint(elems[i]) <= Footprint(d.elems[i]) + s.cells + more
  }

  /** The destination of a merge under way, after the first done indices. */
  ghost predicate MergingElems(arr: ArrCell, elems: seq<Tree>, d: Tree, s: Tree, done: nat, more: set<object>)
    requires d.ArrNode? && s.ArrNode?
    reads d.cells, s.cells, more
  {
    && ElemsMerged(elems, d, s, done) && ElemsBounded(elems, d, s, more) && more !! d.cells
    && Covers(AssembledArr(arr, elems, d, s, more)) && Holds(AssembledArr(arr, elems, d, s, more))
  }

  ghost function AssembledArr(arr: ArrCell, elems: seq<Tree>, d: Tree, s: Tree, more: set<object>): Tree
    requires d.ArrNode? && s.ArrNode?
  {
    ArrNode(arr, elems, d.cells + s.cells + more, d.cells + s.cells + more)
  }

  lemma ElemsCover(elems: seq<Tree>, d: Tree, s: Tree, more: set<object>)
    requires d.ArrNode? && s.ArrNode? && Covers(d) && Covers(s) && |elems| == |d.elems| && ElemsBounded(elems, d, s, more)
    ensures Covers(AssembledArr(d.arr, elems, d, s, more))
  {
    var cells := d.cells + s.cells + more;
    forall i: nat | i < |elems|
      ensures Covers(elems[i]) && Footprint(elems[i]) <= cells && Outer(elems[i]) <= cells
    {
      OuterInFootprint(elems[i]);
    }
  }

  /** The array's elements other than index i show the trees other than i. */
  ghost predicate RestShown(dst: ArrCell, elems: seq<Tree>, cells: set<object>, i: nat)
    reads dst, cells
  {
    && |dst.a| == |elems|
    && forall j: nat :: j < |elems| && j != i ==>
         && Covers(elems[j]) && Footprint(elems[j]) <= cells
         && dst.a[j] == Root(elems[j]) && Holds(elems[j])
  }

  ghost function RestCells(d: Tree, s: Tree, more: set<object>, i: nat): set<object>
    requires d.ArrNode? && s.ArrNode? && i < |d.elems|
  {
    d.cells + s.cells + more - {d.arr} - Outer(d.elems[i])
  }

  lemma RestInside(elems: seq<Tree>, d: Tree, s: Tree, more: set<object>, i: nat)
    requires d.ArrNode? && s.ArrNode? && Covers(d) && Unshared(d) && Covers(s) && i < |d.elems| == |elems|
    requires d.outer !! s.cells && more !! d.cells && ElemsBounded(elems, d, s, more)
    ensures forall j: nat :: j < |elems| && j != i ==> Footprint(elems[j]) <= RestCells(d, s, more, i)
  {
    forall j: nat | j < |elems| && j != i ensures Footprint(elems[j]) <= RestCells(d, s, more, i) {
      assert Outer(d.elems[i]) !! Footprint(d.elems[j]);
      assert Outer(d.elems[i]) <= d.outer <= d.cells;
    }
  }

  method StoreElem(dst: ArrCell, i: nat, v: HeapValue, ghost elem: Tree, ghost elems: seq<Tree>,
                   ghost others: set<object>, ghost t: Tree)
    requires i < |elems| && Shows(elem, v) && dst !in Footprint(elem)
    requires RestShown(dst, elems, others, i) && dst !in others
    requires t.ArrNode? && t.arr == dst && t.elems == elems[i := elem] && Covers(t)
    modifies dst
    ensures Holds(t)
  {
    dst.a := dst.a[i := v];
  }

  /** One round of the loop over the common indices. */
  method MergeElem(dst: ArrCell, src: ArrCell, i: nat, ghost d: Tree, ghost s: Tree, ghost elems: seq<Tree>,
                   ghost more: set<object>)
    returns (ok: bool, ghost elems': seq<Tree>, ghost more': set<object>)
    requires Root(d) == HArr(dst) && Covers(d) && Unshared(d) && Shows(s, HArr(src)) && Opened(d, s)
    requires Outer(d) !! Footprint(s) && i < |d.elems| && i < |s.elems| && MergingElems(dst, elems, d, s, i, more)
    modifies Outer(d)
    ensures ok <==> !ElemPanics(d, s, i)
    ensures more <= more' && fresh(more' - more)
    ensures ok ==> MergingElems(dst, elems', d, s, i + 1, more')
    decreases s, 0, 0
  {
    RestInside(elems, d, s, more, i);
    ghost var others := RestCells(d, s, more, i);
    assert RestShown(dst, elems, others, i);
    var v: HeapValue;
    ghost var elem: Tree;
    ok, v, elem := MergeInPlace(dst.a[i], src.a[i], d.elems[i], s.elems[i]);
    elems', more' := elems, more;
    if ok {
      assert RestShown(dst, elems, others, i);
      elems' := elems[i := elem];
      more' := more + (Footprint(elem) - Footprint(d.elems[i]) - s.cells);
      ElemsCover(elems', d, s, more');
      StoreElem(dst, i, v, elem, elems, others, AssembledArr(dst, elems', d, s, more'));
    }
  }

  /** mergeArr's loop; it ends as soon as the merge at one index panics. */
  method MergeElemsInPlace(dst: ArrCell, src: ArrCell, l: nat, ghost d: Tree, ghost s: Tree)
    returns (ok: bool, ghost elems: seq<Tree>, ghost more: set<object>)
    requires Shows(d, HArr(dst)) && Unshared(d) && Shows(s, HArr(src)) && Opened(d, s) && Outer(d) !! Footprint(s)
    requires l == Min(|d.elems|, |s.elems|)
    modifies Outer(d)
    ensures !ok ==> exists i: nat :: i < l && ElemPanics(d, s, i)
    ensures ok ==> fresh(more) && MergingElems(dst, elems, d, s, l, more)
    decreases s, 0, 1
  {
    elems, more := d.elems, {};
    ElemsCover(elems, d, s, more);
    for i := 0 to l
      invariant Holds(s)
      invariant fresh(more) && MergingElems(dst, elems, d, s, i, more)
    {
      ok, elems, more := MergeElem(dst, src, i, d, s, elems, more);
      if !ok {
        return false, elems, more;
      }
    }
    ok := true;
  }

  /** Appends the tail of the source to the merged elements, in a new cell. */
  method AppendTail(dst: ArrCell, src: ArrCell, l: nat, ghost elems: seq<Tree>, ghost more: set<object>,
                    ghost d: Tree, ghost s: Tree)
    returns (grown: ArrCell, ghost t: Tree)
    requires d.ArrNode? && s.ArrNode? && Shows(s, HArr(src)) && l == |elems| < |s.elems|
    requires Covers(AssembledArr(dst, elems, d, s, more)) && Holds(AssembledArr(dst, elems, d, s, more))
    ensures fresh(grown) && Shows(t, HArr(grown))
    ensures t == AssembledArr(grown, elems + s.elems[l..], d, s, more + {grown})
  {
    grown := new ArrCell(dst.a + src.a[l..]);
    t := AssembledArr(grown, elems + s.elems[l..], d, s, more + {grown});
    forall i: nat | i < |s.elems| ensures Outer(s.elems[i]) <= s.cells {
      OuterInFootprint(s.elems[i]);
    }
  }

  /** mergeArr on two arrays; the merged array is a new cell if it grows. */
  method MergeArr(dst: ArrCell, src: ArrCell, ghost d: Tree, ghost s: Tree)
    returns (ok: bool, r: HeapValue, ghost t: Tree)
    requires Shows(d, HArr(dst)) && Unshared(d) && Shows(s, HArr(src)) && Opened(d, s) && Outer(d) !! Footprint(s)
    modifies Outer(d)
    ensures ok <==> !MergePanics(Snapshot(d), Snapshot(s))
    ensures ok ==> Shows(t, r) && MergesTo(d, s, t) && fresh(Footprint(t) - Footprint(d) - Footprint(s))
    decreases s, 0, 2
  {
    var l := Min(|dst.a|, |src.a|);
    ghost var elems: seq<Tree>;
    ghost var more: set<object>;
    ok, elems, more := MergeElemsInPlace(dst, src, l, d, s);
    r, t := HArr(dst), AssembledArr(dst, elems, d, s, more);
    if !ok {
      ghost var i: nat :| i < l && ElemPanics(d, s, i);
      OneElemPanics(d, s, i);
      return;
    }
    ElemsDoNotPanic(d, s);
    if l < |src.a| {
      var grown: ArrCell;
      grown, t := AppendTail(dst, src, l, elems, more, d, s);
      r := HArr(grown);
    }
    ElemsMergeTo(elems, d, s, t);
  }

  lemma ElemsMergeTo(elems: seq<Tree>, d: Tree, s: Tree, t: Tree)
    requires d.ArrNode? && s.ArrNode? && t.ArrNode? && ElemsMerged(elems, d, s, Min(|d.elems|, |s.elems|))
    requires if |s.elems| <= |d.elems| then t.elems == elems && t.arr == d.arr
             else t.elems == elems + s.elems[|d.elems|..]
    ensures MergesTo(d, s, t)
  {
    forall i: nat | i < |t.elems| ensures ElemMergesTo(d, s, i, t.elems[i]) {
      assert i < Min(|d.elems|, |s.elems|) ==> ElemMergesTo(d, s, i, elems[i]);
    }
  }

  lemma OneElemPanics(d: Tree, s: Tree, i: nat)
    requires d.ArrNode? && s.ArrNode? && i < |d.elems| && i < |s.elems| && ElemPanics(d, s, i)
    ensures MergePanics(Snapshot(d), Snapshot(s))
  {
    assert i < Min(|Snapshot(d).items|, |Snapshot(s).items|);
    assert MergePanics(Snapshot(d).items[i], Snapshot(s).items[i]);
  }

  lemma ElemsDoNotPanic(d: Tree, s: Tree)
    requires d.ArrNode? && s.ArrNode?
    requires forall i: nat :: i < Min(|d.elems|, |s.elems|) ==> !ElemPanics(d, s, i)
    ensures !MergePanics(Snapshot(d), Snapshot(s))
  {
    forall i: nat | i < |d.elems| && i < |s.elems| ensures !MergePanics(Snapshot(d).items[i], Snapshot(s).items[i]) {
      assert !ElemPanics(d, s, i);
    }
  }
}
