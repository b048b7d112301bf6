/**
 Resolving in place what merging leaves behind, and jdig.Merge as a whole on the heap: merging in place
 from right to left, and then resolving the handlers and discard markers that are left.  Cells may be
 shared; a cell that is visited again was resolved before, and resolving it once more changes nothing.
 */
module JsonResolve {
  import opened Wrappers
  import opened Json
  import opened JsonHeap
  import opened JsonPlaces
  import opened JsonLists
  import JsonHandlers

  // ---------------------------------------------------------------------------------------
  // What resolving leaves behind
  // ---------------------------------------------------------------------------------------

  ghost function Kept(t: Tree): Tree {
    if t == Leaf(Discard) then Leaf(Null) else t
  }

  ghost function Resolved(t: Tree, discardOnly: bool): Tree {
    match t
    case Leaf(v) => if v.Keep? && !discardOnly then Leaf(Null) else t
    case ObjNode(c, kids, cells, _) =>
      var left := map k | k in kids && Resolved(kids[k], discardOnly) != Leaf(Discard) :: Resolved(kids[k], discardOnly);
      ObjNode(c, left, cells, cells)
    case ArrNode(c, elems, cells, _) =>
      ArrNode(c, seq(|elems|, i requires 0 <= i < |elems| => Kept(Resolved(elems[i], discardOnly))), cells, cells)
    case ReplaceNode(w, _) => if discardOnly then t else Resolved(w, discardOnly)
    case Unseen(_) => t
  }

  /** Resolving the tree panics; resolving only the markers never does. */
  ghost predicate Panics(t: Tree, discardOnly: bool) {
    !discardOnly && ResolvePanics(Snapshot(t))
  }

  lemma DiscardSnapshot(t: Tree)
    requires Full(t)
    ensures Snapshot(t).Discard? <==> t == Leaf(Discard)
  {
  }

  lemma {:induction false} ResolvedFull(t: Tree, discardOnly: bool)
    requires Full(t)
    ensures Full(Resolved(t, discardOnly))
  {
    match t
    case ObjNode(_, kids, _, _) =>
      forall k | k in kids ensures Full(Resolved(kids[k], discardOnly)) {
        ResolvedFull(kids[k], discardOnly);
      }
    case ArrNode(_, elems, _, _) =>
      forall i: nat | i < |elems| ensures Full(Resolved(elems[i], discardOnly)) {
        ResolvedFull(elems[i], discardOnly);
      }
    case ReplaceNode(w, _) => ResolvedFull(w, discardOnly);
    case _ =>
  }

  /** One child: its snapshot, and whether it is dropped. */
  ghost predicate SnapshotsAgree(t: Tree, discardOnly: bool) {
    var u, v := Resolved(t, discardOnly), Resolve(Snapshot(t), discardOnly);
    Snapshot(u) == v && (u == Leaf(Discard) <==> v.Discard?)
  }

  lemma FieldsAgree(t: Tree, discardOnly: bool)
    requires t.ObjNode? && forall k :: k in t.kids ==> SnapshotsAgree(t.kids[k], discardOnly)
    ensures SnapshotsAgree(t, discardOnly)
  {
    forall k | k in t.kids ensures SnapshotsAgree(t.kids[k], discardOnly) && Snapshot(t).fields[k] == Snapshot(t.kids[k]) {
    }
    assert Snapshot(Resolved(t, discardOnly)).fields == Resolve(Snapshot(t), discardOnly).fields;
  }

  lemma ElemsAgree(t: Tree, discardOnly: bool)
    requires t.ArrNode? && forall i: nat :: i < |t.elems| ==> SnapshotsAgree(t.elems[i], discardOnly)
    ensures SnapshotsAgree(t, discardOnly)
  {
    forall i: nat | i < |t.elems|
      ensures Snapshot(Kept(Resolved(t.elems[i], discardOnly))) == Element(Resolve(Snapshot(t.elems[i]), discardOnly))
    {
      assert SnapshotsAgree(t.elems[i], discardOnly);
    }
    assert Snapshot(Resolved(t, discardOnly)).items == Resolve(Snapshot(t), discardOnly).items;
  }

  lemma {:induction false} ResolvedSnapshot(t: Tree, discardOnly: bool)
    requires Full(t) && Covers(t)
    ensures SnapshotsAgree(t, discardOnly)
  {
    match t
    case ObjNode(_, kids, _, _) =>
      forall k | k in kids ensures SnapshotsAgree(kids[k], discardOnly) {
        ResolvedSnapshot(kids[k], discardOnly);
      }
      FieldsAgree(t, discardOnly);
    case ArrNode(_, elems, _, _) =>
      forall i: nat | i < |elems| ensures SnapshotsAgree(elems[i], discardOnly) {
        ResolvedSnapshot(elems[i], discardOnly);
      }
      ElemsAgree(t, discardOnly);
    case ReplaceNode(w, _) => ResolvedSnapshot(w, discardOnly);
    case _ =>
  }

  lemma {:induction false} ResolvedCovers(t: Tree, discardOnly: bool)
    requires Covers(t)
    ensures var u := Resolved(t, discardOnly);
            Covers(u) && Outer(u) <= Footprint(u) <= Footprint(t)
  {
    OuterInFootprint(t);
    match t
    case ObjNode(_, kids, _, _) =>
      forall k | k in kids
        ensures var u := Resolved(kids[k], discardOnly);
                Covers(u) && Outer(u) <= Footprint(u) <= Footprint(kids[k])
      {
        ResolvedCovers(kids[k], discardOnly);
      }
    case ArrNode(_, elems, _, _) =>
      forall i: nat | i < |elems|
        ensures var u := Kept(Resolved(elems[i], discardOnly));
                Covers(u) && Outer(u) <= Footprint(u) <= Footprint(elems[i])
      {
        ResolvedCovers(elems[i], discardOnly);
      }
    case ReplaceNode(w, _) => ResolvedCovers(w, discardOnly);
    case _ =>
  }

  // ---------------------------------------------------------------------------------------
  // Cells before and after they are resolved
  // ---------------------------------------------------------------------------------------

  ghost predicate AllKnown(nodes: Nodes) {
    forall c: object :: c in nodes ==> IsNode(nodes[c]) && CellOf(nodes[c]) == c && Known(nodes[c], nodes)
  }

  /** The node's own cell has what the tree says. */
  ghost predicate Content(t: Tree)
    requires IsNode(t)
    reads CellOf(t)
  {
    (t.ObjNode? ==> t.obj.m == Roots(t.kids)) && (t.ArrNode? ==> t.arr.a == RootSeq(t.elems))
  }

  /** All cells that resolving visits are in done. */
  ghost predicate Visited(t: Tree, done: set<object>, discardOnly: bool) {
    (IsNode(t) ==> CellOf(t) in done) &&
    match t
    case ObjNode(_, kids, _, _) => forall k :: k in kids ==> Visited(kids[k], done, discardOnly)
    case ArrNode(_, elems, _, _) => forall i: nat :: i < |elems| ==> Visited(elems[i], done, discardOnly)
    case ReplaceNode(w, _) => !discardOnly ==> Visited(w, done, discardOnly)
    case _ => true
  }

  /** Cells that are done have everything below them done, and did not panic. */
  ghost predicate AllDone(nodes: Nodes, done: set<object>, discardOnly: bool) {
    forall c: object :: c in done ==> c in nodes && Visited(nodes[c], done, discardOnly) && !Panics(nodes[c], discardOnly)
  }

  /** Every cell is resolved or as it was, except for those that are being worked on. */
  ghost predicate Halfway(nodes: Nodes, done: set<object>, busy: set<object>, discardOnly: bool)
    requires AllKnown(nodes)
    reads nodes.Keys
  {
    forall c: object :: c in nodes && c !in busy ==>
      if c in done then Content(Resolved(nodes[c], discardOnly)) else Content(nodes[c])
  }

  /** The tree is below the nodes that are being worked on. */
  ghost predicate Below(t: Tree, nodes: Nodes, busy: set<object>) {
    forall c: object :: c in busy ==> c in nodes && (t.Leaf? || t < nodes[c])
  }

  ghost function VisitedCells(t: Tree, discardOnly: bool): set<object> {
    if discardOnly then OuterCells(t) else AllCells(t)
  }

  lemma {:induction false} VisitedMore(t: Tree, done: set<object>, more: set<object>, discardOnly: bool)
    requires Visited(t, done, discardOnly) && done <= more
    ensures Visited(t, more, discardOnly)
  {
    match t
    case ObjNode(_, kids, _, _) =>
      forall k | k in kids ensures Visited(kids[k], more, discardOnly) {
        VisitedMore(kids[k], done, more, discardOnly);
      }
    case ArrNode(_, elems, _, _) =>
      forall i: nat | i < |elems| ensures Visited(elems[i], more, discardOnly) {
        VisitedMore(elems[i], done, more, discardOnly);
      }
    case ReplaceNode(w, _) =>
      if !discardOnly {
        VisitedMore(w, done, more, discardOnly);
      }
    case _ =>
  }

  /** What the handlers of a tree that was resolved refer to. */
  ghost function Strip(t: Tree, discardOnly: bool): Tree {
    if t.ReplaceNode? && !discardOnly then Strip(t.with, discardOnly) else t
  }

  lemma {:induction false} StripKeeps(t: Tree, discardOnly: bool, nodes: Nodes, done: set<object>)
    requires Known(t, nodes) && Full(t) && Covers(t) && Visited(t, done, discardOnly) && !Panics(t, discardOnly)
    ensures var u := Strip(t, discardOnly);
            && Known(u, nodes) && Full(u) && Covers(u) && Visited(u, done, discardOnly) && !Panics(u, discardOnly)
            && Resolved(u, discardOnly) == Resolved(t, discardOnly) && (u == t || u < t)
            && (u.ReplaceNode? ==> discardOnly)
  {
    if t.ReplaceNode? && !discardOnly {
      StripKeeps(t.with, discardOnly, nodes, done);
    }
  }

  // ---------------------------------------------------------------------------------------
  // Resolving
  // ---------------------------------------------------------------------------------------

  ghost function Height(t: Tree): nat {
    if t.Leaf? then 0 else 1
  }

  /** Whether v is what the tree t stands for, or again says that it was resolved before. */
  ghost predicate Ready(v: HeapValue, t: Tree, again: bool, done: set<object>, discardOnly: bool) {
    if again then
      && v == Root(Resolved(t, discardOnly)) && Visited(t, done, discardOnly) && !Panics(t, discardOnly)
      && (t.ReplaceNode? ==> discardOnly)
    else v == Root(t)
  }

  /** More cells were done, all of them visited below the tree, and none that is worked on. */
  ghost predicate Grown(done: set<object>, more: set<object>, t: Tree, busy: set<object>, discardOnly: bool) {
    done <= more && more - done <= VisitedCells(t, discardOnly) && (more - done) !! busy
  }

  ghost predicate Sound(nodes: Nodes, done: set<object>, busy: set<object>, discardOnly: bool)
    reads nodes.Keys
  {
    AllKnown(nodes) && AllDone(nodes, done, discardOnly) && Halfway(nodes, done, busy, discardOnly)
  }

  /** resolveRemainingHandler: calls the handlers with null, and resolves what they return. */
  method ResolveValue(v: HeapValue, discardOnly: bool, ghost t: Tree, ghost again: bool, ghost nodes: Nodes,
                      ghost done: set<object>, ghost busy: set<object>)
    returns (ok: bool, r: HeapValue, ghost done': set<object>)
    requires Known(t, nodes) && Full(t) && Covers(t) && Below(t, nodes, busy)
    requires Sound(nodes, done, busy, discardOnly) && Ready(v, t, again, done, discardOnly)
    modifies nodes.Keys - busy
    ensures ok <==> again || !Panics(t, discardOnly)
    ensures ok ==>
              && r == Root(Resolved(t, discardOnly)) && Visited(t, done', discardOnly)
              && Sound(nodes, done', busy, discardOnly)
    ensures Grown(done, done', t, busy, discardOnly)
    decreases Height(t), t, 5
  {
    ok, r, done' := true, v, done;
    match v {
      case HObj(obj) => ok, done' := ResolveObj(obj, discardOnly, t, nodes, done, busy);
      case HArr(arr) => ok, done' := ResolveArr(arr, discardOnly, t, nodes, done, busy);
      case HLeaf(leaf) =>
        if leaf.Keep? && !discardOnly {
          r := HLeaf(Null);
        }
      case HReplace(with) =>
        if !discardOnly {
          HandlerSnapshot(t.with);
          if HoldsHandler(with) {
            ok := false;
          } else {
            ok, r, done' := ResolveValue(with, discardOnly, t.with, false, nodes, done, busy);
          }
        }
    }
  }

  // ---------------------------------------------------------------------------------------
  // Objects
  // ---------------------------------------------------------------------------------------

  /** The fields of the object while it is worked on; resolved says which of them were resolved. */
  ghost function Partly(t: Tree, discardOnly: bool, resolved: set<string>): map<string, HeapValue>
    requires t.ObjNode?
  {
    map k | k in t.kids && !(k in resolved && Resolved(t.kids[k], discardOnly) == Leaf(Discard)) ::
      if k in resolved then Root(Resolved(t.kids[k], discardOnly)) else Root(t.kids[k])
  }

  lemma PartlyEnds(t: Tree, discardOnly: bool)
    requires t.ObjNode?
    ensures Partly(t, discardOnly, {}) == Roots(t.kids)
    ensures Partly(t, discardOnly, t.kids.Keys) == Roots(Resolved(t, discardOnly).kids)
  {
  }

  lemma PartlyStep(t: Tree, discardOnly: bool, resolved: set<string>, k: string)
    requires t.ObjNode? && k in t.kids
    ensures var kid := Resolved(t.kids[k], discardOnly);
            Partly(t, discardOnly, resolved + {k}) ==
            if kid == Leaf(Discard) then Partly(t, discardOnly, resolved) - {k}
            else Partly(t, discardOnly, resolved)[k := Root(kid)]
  {
  }

  /** The tree to resolve for a child: it is what the child was, or what it became if that was before. */
  ghost function ToResolve(t: Tree, discardOnly: bool, again: bool): Tree {
    if !again then t
    else if Resolved(t, discardOnly) == Leaf(Discard) then Leaf(Null)
    else Strip(t, discardOnly)
  }

  ghost predicate CanResolve(v: HeapValue, t: Tree, again: bool, nodes: Nodes, done: set<object>, busy: set<object>,
                             discardOnly: bool)
  {
    Known(t, nodes) && Full(t) && Covers(t) && Below(t, nodes, busy) && Ready(v, t, again, done, discardOnly)
  }

  /** The child of a node that is worked on for the first time. */
  lemma FirstChild(t: Tree, place: Place, discardOnly: bool, nodes: Nodes, done: set<object>, busy: set<object>)
    requires IsNode(t) && Sub(t, place).Some? && Known(t, nodes) && Full(t) && Covers(t) && Below(t, nodes, busy)
    ensures var kid := Sub(t, place).value;
            && CanResolve(Root(kid), kid, false, nodes, done, busy + {CellOf(t)}, discardOnly) && kid < t
            && VisitedCells(kid, discardOnly) <= VisitedCells(t, discardOnly)
  {
    SubCells(t, place);
  }

  /** The child of a node that was resolved before. */
  lemma NextChild(t: Tree, place: Place, discardOnly: bool, nodes: Nodes, done: set<object>, busy: set<object>)
    requires IsNode(t) && Sub(t, place).Some? && Known(t, nodes) && Full(t) && Covers(t) && Below(t, nodes, busy)
    requires Visited(t, done, discardOnly) && !Panics(t, discardOnly)
    ensures var kid := Sub(t, place).value;
            var u := ToResolve(kid, discardOnly, true);
            && CanResolve(Root(Kept(Resolved(kid, discardOnly))), u, true, nodes, done, busy + {CellOf(t)}, discardOnly)
            && (u < t || u.Leaf?) && Resolved(u, discardOnly) == Kept(Resolved(kid, discardOnly))
            && VisitedCells(u, discardOnly) <= VisitedCells(t, discardOnly)
  {
    var kid := Sub(t, place).value;
    SubCells(t, place);
    ChildPanics(t, place, discardOnly);
    ChildVisited(t, place, discardOnly, nodes, done);
    StripKeeps(kid, discardOnly, nodes, done);
    StripCells(kid, discardOnly);
    if Resolved(kid, discardOnly) == Leaf(Discard) {
      NextGone(t, discardOnly, nodes, done, busy);
    } else {
      NextStripped(t, kid, discardOnly, nodes, done, busy);
    }
  }

  lemma NextGone(t: Tree, discardOnly: bool, nodes: Nodes, done: set<object>, busy: set<object>)
    requires IsNode(t) && Known(t, nodes) && Below(t, nodes, busy)
    ensures CanResolve(HLeaf(Null), Leaf(Null), true, nodes, done, busy + {CellOf(t)}, discardOnly)
    ensures Resolved(Leaf(Null), discardOnly) == Leaf(Null) && VisitedCells(Leaf(Null), discardOnly) == {}
  {
    BelowNode(t, Leaf(Null), nodes, busy);
  }

  lemma NextStripped(t: Tree, kid: Tree, discardOnly: bool, nodes: Nodes, done: set<object>, busy: set<object>)
    requires IsNode(t) && Known(t, nodes) && Below(t, nodes, busy) && kid < t
    requires Known(kid, nodes) && Full(kid) && Covers(kid) && Visited(kid, done, discardOnly) && !Panics(kid, discardOnly)
    ensures var u := Strip(kid, discardOnly);
            && CanResolve(Root(Resolved(kid, discardOnly)), u, true, nodes, done, busy + {CellOf(t)}, discardOnly)
            && u < t
  {
    StripKeeps(kid, discardOnly, nodes, done);
    BelowNode(t, Strip(kid, discardOnly), nodes, busy);
  }

  lemma BelowNode(t: Tree, u: Tree, nodes: Nodes, busy: set<object>)
    requires IsNode(t) && Known(t, nodes) && Below(t, nodes, busy) && (u < t || u.Leaf?)
    ensures Below(u, nodes, busy + {CellOf(t)})
  {
  }

  lemma ChildVisited(t: Tree, place: Place, discardOnly: bool, nodes: Nodes, done: set<object>)
    requires IsNode(t) && Sub(t, place).Some? && Known(t, nodes) && Full(t) && Covers(t) && Visited(t, done, discardOnly)
    ensures var kid := Sub(t, place).value;
            Known(kid, nodes) && Full(kid) && Covers(kid) && Visited(kid, done, discardOnly)
  {
  }

  lemma {:induction false} StripCells(t: Tree, discardOnly: bool)
    ensures VisitedCells(Strip(t, discardOnly), discardOnly) <= VisitedCells(t, discardOnly)
  {
    if t.ReplaceNode? && !discardOnly {
      StripCells(t.with, discardOnly);
    }
  }

  lemma ChildPanics(t: Tree, place: Place, discardOnly: bool)
    requires IsNode(t) && Sub(t, place).Some?
    ensures Panics(Sub(t, place).value, discardOnly) ==> Panics(t, discardOnly)
  {
    match place
    case Field(k) => assert k in Snapshot(t).fields && Snapshot(t).fields[k] == Snapshot(t.kids[k]);
    case Item(i) => assert Snapshot(t).items[i] == Snapshot(t.elems[i]);
    case Inside =>
  }

  /** The object while it is worked on: its cell is as far as resolved says, all others are sound. */
  ghost predicate Working(t: Tree, nodes: Nodes, done: set<object>, busy: set<object>, discardOnly: bool, resolved: set<string>)
    requires t.ObjNode? && t.obj in nodes
    reads nodes.Keys
  {
    && Sound(nodes, done, busy + {t.obj}, discardOnly)
    && t.obj.m == Partly(t, discardOnly, resolved)
    && forall k :: k in t.kids && k in resolved ==>
         Visited(t.kids[k], done, discardOnly) && !Panics(t.kids[k], discardOnly)
  }

  /** Resolves a child of a node that is worked on; the node itself is not updated yet. */
  method ResolveChild(v: HeapValue, place: Place, discardOnly: bool, ghost t: Tree, ghost again: bool, ghost nodes: Nodes,
                      ghost done: set<object>, ghost busy: set<object>)
    returns (ok: bool, r: HeapValue, ghost done': set<object>)
    requires IsNode(t) && Sub(t, place).Some? && CellOf(t) !in busy
    requires Known(t, nodes) && Full(t) && Covers(t) && Below(t, nodes, busy)
    requires Sound(nodes, done, busy + {CellOf(t)}, discardOnly)
    requires again ==> Visited(t, done, discardOnly) && !Panics(t, discardOnly)
    requires v == Root(if again then Kept(Resolved(Sub(t, place).value, discardOnly)) else Sub(t, place).value)
    modifies nodes.Keys - busy - {CellOf(t)}
    ensures ok <==> again || !Panics(Sub(t, place).value, discardOnly)
    ensures ok ==>
              && Sound(nodes, done', busy + {CellOf(t)}, discardOnly)
              && (again || Visited(Sub(t, place).value, done', discardOnly))
              && r == Root(if again then Kept(Resolved(Sub(t, place).value, discardOnly))
                           else Resolved(Sub(t, place).value, discardOnly))
    ensures Grown(done, done', t, busy + {CellOf(t)}, discardOnly)
    decreases 1, t, 0
  {
    if again {
      NextChild(t, place, discardOnly, nodes, done, busy);
    } else {
      FirstChild(t, place, discardOnly, nodes, done, busy);
    }
    ghost var u := ToResolve(Sub(t, place).value, discardOnly, again);
    ok, r, done' := ResolveValue(v, discardOnly, u, again, nodes, done, busy + {CellOf(t)});
  }

  /** One round of the loop over the object's keys, which come in any order. */
  method ResolveField(obj: ObjCell, k: string, discardOnly: bool, ghost t: Tree, ghost again: bool, ghost nodes: Nodes,
                      ghost done: set<object>, ghost busy: set<object>, ghost resolved: set<string>)
    returns (ok: bool, ghost done': set<object>)
    requires t.ObjNode? && t.obj == obj && obj !in busy
    requires Known(t, nodes) && Full(t) && Covers(t) && Below(t, nodes, busy)
    requires Working(t, nodes, done, busy, discardOnly, resolved) && k in obj.m && (again <==> k in resolved)
    requires again ==> Visited(t, done, discardOnly) && !Panics(t, discardOnly)
    modifies nodes.Keys - busy
    ensures ok <==> again || !Panics(t.kids[k], discardOnly)
    ensures ok ==> Working(t, nodes, done', busy, discardOnly, resolved + {k})
    ensures Grown(done, done', t, busy + {obj}, discardOnly)
    decreases 1, t, 1
  {
    var r: HeapValue;
    ok, r, done' := ResolveChild(obj.m[k], Field(k), discardOnly, t, again, nodes, done, busy);
    if ok {
      WorkingMore(t, done, done', discardOnly, resolved);
      StoreField(obj, k, r, discardOnly, t, nodes, done', busy, resolved);
    }
  }

  method StoreField(obj: ObjCell, k: string, r: HeapValue, discardOnly: bool, ghost t: Tree, ghost nodes: Nodes,
                    ghost done: set<object>, ghost busy: set<object>, ghost resolved: set<string>)
    requires t.ObjNode? && t.obj == obj && obj in nodes && k in t.kids && Full(t)
    requires Sound(nodes, done, busy + {obj}, discardOnly)
    requires obj.m == Partly(t, discardOnly, resolved) && r == Root(Resolved(t.kids[k], discardOnly))
    modifies obj
    ensures Sound(nodes, done, busy + {obj}, discardOnly) && obj.m == Partly(t, discardOnly, resolved + {k})
  {
    ResolvedFull(t.kids[k], discardOnly);
    PartlyStep(t, discardOnly, resolved, k);
    obj.m := obj.m[k := r];
    if r == HLeaf(Discard) {
      obj.m := obj.m - {k};
    }
    ResolvedCells(nodes);
  }

  lemma ResolvedCells(nodes: Nodes)
    requires AllKnown(nodes)
    ensures forall c: object, discardOnly: bool :: c in nodes ==>
              IsNode(Resolved(nodes[c], discardOnly)) && CellOf(Resolved(nodes[c], discardOnly)) == c
  {
  }

  lemma WorkingMore(t: Tree, done: set<object>, more: set<object>, discardOnly: bool, resolved: set<string>)
    requires t.ObjNode? && done <= more
    requires forall k :: k in t.kids && k in resolved ==> Visited(t.kids[k], done, discardOnly)
    ensures forall k :: k in t.kids && k in resolved ==> Visited(t.kids[k], more, discardOnly)
  {
    forall k | k in t.kids && k in resolved ensures Visited(t.kids[k], more, discardOnly) {
      VisitedMore(t.kids[k], done, more, discardOnly);
    }
  }

  /** All objects that were worked on are done: the invariant takes them in. */
  lemma TakeIn(t: Tree, nodes: Nodes, done: set<object>, busy: set<object>, discardOnly: bool)
    requires IsNode(t) && Known(t, nodes) && Sound(nodes, done, busy + {CellOf(t)}, discardOnly)
    requires Content(Resolved(t, discardOnly)) && Visited(t, done + {CellOf(t)}, discardOnly) && !Panics(t, discardOnly)
    ensures Sound(nodes, done + {CellOf(t)}, busy, discardOnly)
  {
    var more := done + {CellOf(t)};
    forall c: object | c in more ensures c in nodes && Visited(nodes[c], more, discardOnly) && !Panics(nodes[c], discardOnly) {
      if c != CellOf(t) {
        VisitedMore(nodes[c], done, more, discardOnly);
      }
    }
  }

  /** The object while it is worked on, with the keys that are left. */
  ghost predicate FieldsAt(t: Tree, nodes: Nodes, done: set<object>, busy: set<object>, discardOnly: bool, again: bool,
                           resolved: set<string>, rest: set<string>)
    requires t.ObjNode? && t.obj in nodes
    reads nodes.Keys
  {
    && Working(t, nodes, done, busy, discardOnly, resolved) && rest <= t.obj.m.Keys
    && (if again then resolved == t.kids.Keys else resolved == t.kids.Keys - rest)
    && (again ==> Visited(t, done, discardOnly) && !Panics(t, discardOnly))
  }

  method ResolveNext(obj: ObjCell, k: string, discardOnly: bool, ghost t: Tree, ghost again: bool, ghost nodes: Nodes,
                     ghost done: set<object>, ghost busy: set<object>, ghost resolved: set<string>, ghost rest: set<string>)
    returns (ok: bool, ghost done': set<object>)
    requires t.ObjNode? && t.obj == obj && obj !in busy
    requires Known(t, nodes) && Full(t) && Covers(t) && Below(t, nodes, busy)
    requires FieldsAt(t, nodes, done, busy, discardOnly, again, resolved, rest) && k in rest
    modifies nodes.Keys - busy
    ensures !ok ==> !again && Panics(t, discardOnly)
    ensures ok ==> FieldsAt(t, nodes, done', busy, discardOnly, again, resolved + {k}, rest - {k})
    ensures Grown(done, done', t, busy + {obj}, discardOnly)
    decreases 1, t, 2
  {
    ok, done' := ResolveField(obj, k, discardOnly, t, again, nodes, done, busy, resolved);
    ChildPanics(t, Field(k), discardOnly);
    if ok {
      FieldsLeft(t, discardOnly, resolved, k, rest);
      if again {
        VisitedMore(t, done, done', discardOnly);
      }
      FieldsGoOn(t, nodes, done', busy, discardOnly, again, resolved, k, rest);
    }
  }

  lemma FieldsGoOn(t: Tree, nodes: Nodes, done: set<object>, busy: set<object>, discardOnly: bool, again: bool,
                   resolved: set<string>, k: string, rest: set<string>)
    requires t.ObjNode? && t.obj in nodes && k in rest && k in t.kids
    requires Working(t, nodes, done, busy, discardOnly, resolved + {k}) && rest - {k} <= t.obj.m.Keys
    requires if again then resolved == t.kids.Keys else resolved == t.kids.Keys - rest
    requires again ==> Visited(t, done, discardOnly) && !Panics(t, discardOnly)
    ensures FieldsAt(t, nodes, done, busy, discardOnly, again, resolved + {k}, rest - {k})
  {
  }

  /** The loop over the fields; afterwards all of them are resolved. */
  method ResolveFields(obj: ObjCell, discardOnly: bool, ghost t: Tree, ghost again: bool, ghost nodes: Nodes,
                       ghost done: set<object>, ghost busy: set<object>)
    returns (ok: bool, ghost done': set<object>)
    requires t.ObjNode? && t.obj == obj && obj !in busy && (again <==> obj in done)
    requires Known(t, nodes) && Full(t) && Covers(t) && Below(t, nodes, busy) && Sound(nodes, done, busy, discardOnly)
    modifies nodes.Keys - busy
    ensures ok <==> again || !Panics(t, discardOnly)
    ensures ok ==> Working(t, nodes, done', busy, discardOnly, t.kids.Keys)
    ensures Grown(done, done', t, busy + {obj}, discardOnly)
    decreases 1, t, 3
  {
    ghost var resolved: set<string> := if again then t.kids.Keys else {};
    done' := done;
    BeginWork(t, nodes, done, busy, discardOnly, again);
    PartlyEnds(t, discardOnly);
    var rest := obj.m.Keys;
    while rest != {}
      invariant FieldsAt(t, nodes, done', busy, discardOnly, again, resolved, rest)
      invariant Grown(done, done', t, busy + {obj}, discardOnly)
      decreases rest
    {
      var k :| k in rest;
      ok, done' := ResolveNext(obj, k, discardOnly, t, again, nodes, done', busy, resolved, rest);
      if !ok {
        return false, done';
      }
      rest, resolved := rest - {k}, resolved + {k};
    }
    ok := true;
    assert resolved == t.kids.Keys;
    if !again {
      FieldsPanicNot(t, discardOnly);
    }
  }

  lemma BeginWork(t: Tree, nodes: Nodes, done: set<object>, busy: set<object>, discardOnly: bool, again: bool)
    requires t.ObjNode? && t.obj !in busy && (again <==> t.obj in done)
    requires Known(t, nodes) && Full(t) && Sound(nodes, done, busy, discardOnly)
    ensures Working(t, nodes, done, busy, discardOnly, if again then t.kids.Keys else {})
    ensures again ==> Visited(t, done, discardOnly) && !Panics(t, discardOnly)
  {
    PartlyEnds(t, discardOnly);
    assert Content(if again then Resolved(nodes[t.obj], discardOnly) else nodes[t.obj]);
    if again {
      forall k | k in t.kids ensures !Panics(t.kids[k], discardOnly) {
        ChildPanics(t, Field(k), discardOnly);
      }
    }
  }

  /** The keys that are left are those of the object still. */
  lemma FieldsLeft(t: Tree, discardOnly: bool, resolved: set<string>, k: string, rest: set<string>)
    requires t.ObjNode? && rest <= Partly(t, discardOnly, resolved).Keys
    ensures rest - {k} <= Partly(t, discardOnly, resolved + {k}).Keys
  {
  }

  lemma FieldsPanicNot(t: Tree, discardOnly: bool)
    requires t.ObjNode? && forall k :: k in t.kids ==> !Panics(t.kids[k], discardOnly)
    ensures !Panics(t, discardOnly)
  {
    assert forall k :: k in Snapshot(t).fields ==> Snapshot(t).fields[k] == Snapshot(t.kids[k]);
  }

  method ResolveObj(obj: ObjCell, discardOnly: bool, ghost t: Tree, ghost nodes: Nodes, ghost done: set<object>,
                    ghost busy: set<object>)
    returns (ok: bool, ghost done': set<object>)
    requires t.ObjNode? && t.obj == obj && Known(t, nodes) && Full(t) && Covers(t) && Below(t, nodes, busy)
    requires Sound(nodes, done, busy, discardOnly)
    modifies nodes.Keys - busy
    ensures ok <==> obj in done || !Panics(t, discardOnly)
    ensures ok ==> Visited(t, done', discardOnly) && Sound(nodes, done', busy, discardOnly)
    ensures Grown(done, done', t, busy, discardOnly)
    decreases 1, t, 4
  {
    ghost var again := obj in done;
    ok, done' := ResolveFields(obj, discardOnly, t, again, nodes, done, busy);
    if ok {
      PartlyEnds(t, discardOnly);
      DonePanicNot(t, nodes, done, discardOnly);
      WorkingMore(t, done', done' + {obj}, discardOnly, t.kids.Keys);
      TakeIn(t, nodes, done', busy, discardOnly);
      done' := done' + {obj};
    }
  }

  lemma DonePanicNot(t: Tree, nodes: Nodes, done: set<object>, discardOnly: bool)
    requires IsNode(t) && Known(t, nodes) && AllDone(nodes, done, discardOnly)
    ensures CellOf(t) in done ==> !Panics(t, discardOnly) && Visited(t, done, discardOnly)
  {
  }

  // ---------------------------------------------------------------------------------------
  // Arrays
  // ---------------------------------------------------------------------------------------

  /** The elements of the array while it is worked on; the first n of them were resolved. */
  ghost function PartlySeq(t: Tree, discardOnly: bool, n: nat): seq<HeapValue>
    requires t.ArrNode?
  {
    seq(|t.elems|, i requires 0 <= i < |t.elems| =>
      Root(if i < n then Kept(Resolved(t.elems[i], discardOnly)) else t.elems[i]))
  }

  lemma PartlySeqEnds(t: Tree, discardOnly: bool)
    requires t.ArrNode?
    ensures PartlySeq(t, discardOnly, 0) == RootSeq(t.elems)
    ensures PartlySeq(t, discardOnly, |t.elems|) == RootSeq(Resolved(t, discardOnly).elems)
  {
  }

  lemma PartlySeqStep(t: Tree, discardOnly: bool, n: nat, i: nat)
    requires t.ArrNode? && i < |t.elems| && (n == i || n == |t.elems|)
    ensures PartlySeq(t, discardOnly, if n == i then i + 1 else n) ==
            PartlySeq(t, discardOnly, n)[i := Root(Kept(Resolved(t.elems[i], discardOnly)))]
  {
  }

  /** The array while it is worked on: its cell is as far as n says, all others are sound. */
  ghost predicate WorkingSeq(t: Tree, nodes: Nodes, done: set<object>, busy: set<object>, discardOnly: bool, n: nat)
    requires t.ArrNode? && t.arr in nodes
    reads nodes.Keys
  {
    && Sound(nodes, done, busy + {t.arr}, discardOnly)
    && t.arr.a == PartlySeq(t, discardOnly, n)
    && forall i: nat :: i < |t.elems| && i < n ==>
         Visited(t.elems[i], done, discardOnly) && !Panics(t.elems[i], discardOnly)
  }

  /** One round of the loop over the indices. */
  method ResolveElem(arr: ArrCell, i: nat, discardOnly: bool, ghost t: Tree, ghost again: bool, ghost nodes: Nodes,
                     ghost done: set<object>, ghost busy: set<object>)
    returns (ok: bool, ghost done': set<object>)
    requires t.ArrNode? && t.arr == arr && arr !in busy && i < |t.elems|
    requires Known(t, nodes) && Full(t) && Covers(t) && Below(t, nodes, busy)
    requires WorkingSeq(t, nodes, done, busy, discardOnly, if again then |t.elems| else i)
    requires again ==> Visited(t, done, discardOnly) && !Panics(t, discardOnly)
    modifies nodes.Keys - busy
    ensures ok <==> again || !Panics(t.elems[i], discardOnly)
    ensures ok ==> WorkingSeq(t, nodes, done', busy, discardOnly, if again then |t.elems| else i + 1)
    ensures Grown(done, done', t, busy + {arr}, discardOnly)
    decreases 1, t, 1
  {
    var r: HeapValue;
    ok, r, done' := ResolveChild(arr.a[i], Item(i), discardOnly, t, again, nodes, done, busy);
    if ok {
      WorkingSeqMore(t, done, done', discardOnly, if again then |t.elems| else i);
      StoreItem(arr, i, r, discardOnly, t, nodes, done', busy, if again then |t.elems| else i);
    }
  }

  method StoreItem(arr: ArrCell, i: nat, r: HeapValue, discardOnly: bool, ghost t: Tree, ghost nodes: Nodes,
                   ghost done: set<object>, ghost busy: set<object>, ghost n: nat)
    requires t.ArrNode? && t.arr == arr && arr in nodes && i < |t.elems| && Full(t) && (n == i || n == |t.elems|)
    requires Sound(nodes, done, busy + {arr}, discardOnly) && arr.a == PartlySeq(t, discardOnly, n)
    requires r == Root(Resolved(t.elems[i], discardOnly)) || r == Root(Kept(Resolved(t.elems[i], discardOnly)))
    modifies arr
    ensures Sound(nodes, done, busy + {arr}, discardOnly)
    ensures arr.a == PartlySeq(t, discardOnly, if n == i then i + 1 else n)
  {
    ResolvedFull(t.elems[i], discardOnly);
    PartlySeqStep(t, discardOnly, n, i);
    arr.a := arr.a[i := r];
    if r == HLeaf(Discard) {
      arr.a := arr.a[i := HLeaf(Null)];
    }
    ResolvedCells(nodes);
  }

  lemma WorkingSeqMore(t: Tree, done: set<object>, more: set<object>, discardOnly: bool, n: nat)
    requires t.ArrNode? && done <= more
    requires forall i: nat :: i < |t.elems| && i < n ==> Visited(t.elems[i], done, discardOnly)
    ensures forall i: nat :: i < |t.elems| && i < n ==> Visited(t.elems[i], more, discardOnly)
  {
    forall i: nat | i < |t.elems| && i < n ensures Visited(t.elems[i], more, discardOnly) {
      VisitedMore(t.elems[i], done, more, discardOnly);
    }
  }

  /** The loop over the indices; afterwards all elements are resolved. */
  method ResolveElems(arr: ArrCell, discardOnly: bool, ghost t: Tree, ghost again: bool, ghost nodes: Nodes,
                      ghost done: set<object>, ghost busy: set<object>)
    returns (ok: bool, ghost done': set<object>)
    requires t.ArrNode? && t.arr == arr && arr !in busy && (again <==> arr in done)
    requires Known(t, nodes) && Full(t) && Covers(t) && Below(t, nodes, busy) && Sound(nodes, done, busy, discardOnly)
    modifies nodes.Keys - busy
    ensures ok <==> again || !Panics(t, discardOnly)
    ensures ok ==> WorkingSeq(t, nodes, done', busy, discardOnly, |t.elems|)
    ensures Grown(done, done', t, busy + {arr}, discardOnly)
    decreases 1, t, 2
  {
    done' := done;
    BeginWorkSeq(t, nodes, done, busy, discardOnly, again);
    for i := 0 to |arr.a|
      invariant WorkingSeq(t, nodes, done', busy, discardOnly, if again then |t.elems| else i)
      invariant Grown(done, done', t, busy + {arr}, discardOnly)
      invariant again ==> Visited(t, done', discardOnly) && !Panics(t, discardOnly)
    {
      ghost var before := done';
      ok, done' := ResolveElem(arr, i, discardOnly, t, again, nodes, done', busy);
      if !ok {
        ChildPanics(t, Item(i), discardOnly);
        return false, done';
      }
      if again {
        VisitedMore(t, before, done', discardOnly);
      }
    }
    ok := true;
    if !again {
      ElemsPanicNot(t, discardOnly);
    }
  }

  lemma BeginWorkSeq(t: Tree, nodes: Nodes, done: set<object>, busy: set<object>, discardOnly: bool, again: bool)
    requires t.ArrNode? && t.arr !in busy && (again <==> t.arr in done)
    requires Known(t, nodes) && Full(t) && Sound(nodes, done, busy, discardOnly)
    ensures WorkingSeq(t, nodes, done, busy, discardOnly, if again then |t.elems| else 0) && |t.arr.a| == |t.elems|
    ensures again ==> Visited(t, done, discardOnly) && !Panics(t, discardOnly)
  {
    PartlySeqEnds(t, discardOnly);
    assert Content(if again then Resolved(nodes[t.arr], discardOnly) else nodes[t.arr]);
    if again {
      forall i: nat | i < |t.elems| ensures !Panics(t.elems[i], discardOnly) {
        ChildPanics(t, Item(i), discardOnly);
      }
    }
  }

  lemma ElemsPanicNot(t: Tree, discardOnly: bool)
    requires t.ArrNode? && forall i: nat :: i < |t.elems| ==> !Panics(t.elems[i], discardOnly)
    ensures !Panics(t, discardOnly)
  {
    assert forall i: nat :: i < |Snapshot(t).items| ==> Snapshot(t).items[i] == Snapshot(t.elems[i]);
  }

  method ResolveArr(arr: ArrCell, discardOnly: bool, ghost t: Tree, ghost nodes: Nodes, ghost done: set<object>,
                    ghost busy: set<object>)
    returns (ok: bool, ghost done': set<object>)
    requires t.ArrNode? && t.arr == arr && Known(t, nodes) && Full(t) && Covers(t) && Below(t, nodes, busy)
    requires Sound(nodes, done, busy, discardOnly)
    modifies nodes.Keys - busy
    ensures ok <==> arr in done || !Panics(t, discardOnly)
    ensures ok ==> Visited(t, done', discardOnly) && Sound(nodes, done', busy, discardOnly)
    ensures Grown(done, done', t, busy, discardOnly)
    decreases 1, t, 3
  {
    ghost var again := arr in done;
    ok, done' := ResolveElems(arr, discardOnly, t, again, nodes, done, busy);
    if ok {
      PartlySeqEnds(t, discardOnly);
      DonePanicNot(t, nodes, done, discardOnly);
      WorkingSeqMore(t, done', done' + {arr}, discardOnly, |t.elems|);
      TakeIn(t, nodes, done', busy, discardOnly);
      done' := done' + {arr};
    }
  }

  // ---------------------------------------------------------------------------------------
  // From the heap to the nodes and back
  // ---------------------------------------------------------------------------------------

  lemma HasPath(t: Tree, c: object)
    requires c in AllCells(t)
    ensures exists path: Path :: CellAt(t, path, c)
  {
    var path := CellHasPlace(t, c);
  }

  ghost function NodeOf(t: Tree, c: object): Tree
    requires c in AllCells(t)
  {
    HasPath(t, c);
    var path: Path :| CellAt(t, path, c);
    Exact(At(t, path).value)
  }

  ghost function NodesOf(t: Tree): Nodes {
    map c | c in AllCells(t) :: NodeOf(t, c)
  }

  lemma NodeIs(t: Tree, c: object, w: World) returns (n: Tree)
    requires c in AllCells(t) && In(t, w) && Full(t) && Covers(t)
    ensures NodeOf(t, c) == Exact(n) && In(n, w) && Full(n) && IsNode(n) && CellOf(n) == c && AllCells(n) <= AllCells(t)
  {
    HasPath(t, c);
    var path: Path :| CellAt(t, path, c) && NodeOf(t, c) == Exact(At(t, path).value);
    n := At(t, path).value;
    AtIn(t, path, w);
    AtCells(t, path);
  }

  lemma {:induction false} AtCells(t: Tree, path: Path)
    requires At(t, path).Some?
    ensures AllCells(At(t, path).value) <= AllCells(t)
    decreases |path|
  {
    if path != [] {
      SubCells(t, path[0]);
      AtCells(Sub(t, path[0]).value, path[1..]);
    }
  }

  lemma KnownNode(u: Tree, t: Tree, w: World)
    requires IsNode(u) && In(u, w) && Full(u) && In(t, w) && Full(t) && Covers(t) && AllCells(u) <= AllCells(t)
    ensures CellOf(u) in NodesOf(t) && NodesOf(t)[CellOf(u)] == Exact(u)
  {
    var n := NodeIs(t, CellOf(u), w);
    SameRoot(n, u, w);
    SameTree(n, u, w);
  }

  lemma SameRoot(a: Tree, b: Tree, w: World)
    requires IsNode(a) && IsNode(b) && CellOf(a) == CellOf(b)
    ensures Root(a) == Root(b)
  {
  }

  /** Every tree that the world looks like has the nodes of the map. */
  lemma {:induction false} KnownIn(u: Tree, t: Tree, w: World)
    requires In(u, w) && Full(u) && In(t, w) && Full(t) && Covers(t) && AllCells(u) <= AllCells(t)
    ensures Known(Exact(u), NodesOf(t))
    decreases u, 1
  {
    if u.ObjNode? {
      KnownNode(u, t, w);
      KnownFields(u, t, w);
      KnownObject(u, NodesOf(t));
    } else if u.ArrNode? {
      KnownNode(u, t, w);
      KnownElems(u, t, w);
      KnownArray(u, NodesOf(t));
    } else if u.ReplaceNode? {
      KnownIn(u.with, t, w);
    }
  }

  lemma {:induction false} KnownFields(u: Tree, t: Tree, w: World)
    requires u.ObjNode? && In(u, w) && Full(u) && In(t, w) && Full(t) && Covers(t) && AllCells(u) <= AllCells(t)
    ensures forall k :: k in u.kids ==> Known(Exact(u.kids[k]), NodesOf(t))
    decreases u, 0
  {
    forall k | k in u.kids ensures Known(Exact(u.kids[k]), NodesOf(t)) {
      SubCells(u, Field(k));
      KnownIn(u.kids[k], t, w);
    }
  }

  lemma {:induction false} KnownElems(u: Tree, t: Tree, w: World)
    requires u.ArrNode? && In(u, w) && Full(u) && In(t, w) && Full(t) && Covers(t) && AllCells(u) <= AllCells(t)
    ensures forall i: nat :: i < |u.elems| ==> Known(Exact(u.elems[i]), NodesOf(t))
    decreases u, 0
  {
    forall i: nat | i < |u.elems| ensures Known(Exact(u.elems[i]), NodesOf(t)) {
      SubCells(u, Item(i));
      KnownIn(u.elems[i], t, w);
    }
  }

  lemma KnownObject(u: Tree, nodes: Nodes)
    requires u.ObjNode? && u.obj in nodes && nodes[u.obj] == Exact(u)
    requires forall k :: k in u.kids ==> Known(Exact(u.kids[k]), nodes)
    ensures Known(Exact(u), nodes)
  {
    ExactObject(u);
  }

  lemma KnownArray(u: Tree, nodes: Nodes)
    requires u.ArrNode? && u.arr in nodes && nodes[u.arr] == Exact(u)
    requires forall i: nat :: i < |u.elems| ==> Known(Exact(u.elems[i]), nodes)
    ensures Known(Exact(u), nodes)
  {
    ExactArray(u);
  }

  lemma ExactNode(t: Tree)
    ensures IsNode(Exact(t)) == IsNode(t) && (IsNode(t) ==> CellOf(Exact(t)) == CellOf(t))
  {
  }

  lemma NodesAreKnown(t: Tree, w: World)
    requires In(t, w) && Full(t) && Covers(t)
    ensures AllKnown(NodesOf(t))
  {
    var nodes := NodesOf(t);
    forall c: object | c in nodes ensures IsNode(nodes[c]) && CellOf(nodes[c]) == c && Known(nodes[c], nodes) {
      var n := NodeIs(t, c, w);
      ExactNode(n);
      KnownIn(n, t, w);
    }
  }

  /** Agreement with the captured world is agreement with the heap. */
  lemma AgreesIsContent(t: Tree, cells: set<object>)
    requires IsNode(t) && CellOf(t) in cells
    ensures Agrees(t, Capture(cells)) <==> Content(t)
  {
  }

  lemma NothingDone(t: Tree, v: HeapValue, discardOnly: bool)
    requires Shows(t, v) && Full(t)
    ensures Known(Exact(t), NodesOf(t)) && Sound(NodesOf(t), {}, {}, discardOnly)
    ensures NodesOf(t).Keys <= Footprint(t)
  {
    var w, nodes := Capture(Footprint(t)), NodesOf(t);
    ExactCovers(t);
    HoldsIsIn(t, Footprint(t));
    KnownIn(t, t, w);
    NodesAreKnown(t, w);
    forall c: object | c in nodes ensures Content(nodes[c]) {
      var n := NodeIs(t, c, w);
      ExactIn(n, w);
      AgreesIsContent(nodes[c], Footprint(t));
    }
  }

  /** What the handlers of the tree refer to is apart from the cells. */
  ghost predicate Sealed(t: Tree, cells: set<object>) {
    match t
    case ObjNode(_, kids, _, _) => forall k :: k in kids ==> Sealed(kids[k], cells)
    case ArrNode(_, elems, _, _) => forall i: nat :: i < |elems| ==> Sealed(elems[i], cells)
    case ReplaceNode(_, _) => AllCells(t) !! cells
    case _ => true
  }

  lemma {:induction false} UntouchedHolds(t: Tree, nodes: Nodes, done: set<object>, discardOnly: bool)
    requires Known(t, nodes) && Covers(t) && Sound(nodes, done, {}, discardOnly) && AllCells(t) !! done
    ensures Holds(t)
  {
    match t
    case ObjNode(c, kids, _, _) =>
      ObjAgrees(c, kids);
      forall k | k in kids ensures Holds(kids[k]) {
        SubCells(t, Field(k));
        UntouchedHolds(kids[k], nodes, done, discardOnly);
      }
    case ArrNode(c, elems, _, _) =>
      ArrAgrees(c, elems);
      forall i: nat | i < |elems| ensures Holds(elems[i]) {
        SubCells(t, Item(i));
        UntouchedHolds(elems[i], nodes, done, discardOnly);
      }
    case ReplaceNode(w, _) => UntouchedHolds(w, nodes, done, discardOnly);
    case _ =>
  }

  lemma {:induction false} ResolvedHolds(t: Tree, nodes: Nodes, done: set<object>, discardOnly: bool)
    requires Known(t, nodes) && Covers(t) && Covers(Resolved(t, discardOnly)) && Sound(nodes, done, {}, discardOnly)
    requires Visited(t, done, discardOnly) && (discardOnly ==> Sealed(t, done))
    ensures Holds(Resolved(t, discardOnly))
  {
    var u := Resolved(t, discardOnly);
    match t
    case ObjNode(c, kids, _, _) =>
      ObjAgrees(c, u.kids);
      forall k | k in u.kids ensures Holds(u.kids[k]) {
        assert u.kids[k] == Resolved(kids[k], discardOnly);
        ResolvedCovers(kids[k], discardOnly);
        ResolvedHolds(kids[k], nodes, done, discardOnly);
      }
      assert Content(u);
    case ArrNode(c, elems, _, _) =>
      ArrAgrees(c, u.elems);
      forall i: nat | i < |elems| ensures Holds(u.elems[i]) {
        assert u.elems[i] == Kept(Resolved(elems[i], discardOnly));
        ResolvedCovers(elems[i], discardOnly);
        ResolvedHolds(elems[i], nodes, done, discardOnly);
      }
      assert Content(u);
    case ReplaceNode(w, _) =>
      if discardOnly {
        UntouchedHolds(t, nodes, done, discardOnly);
      } else {
        ResolvedCovers(w, discardOnly);
        ResolvedHolds(w, nodes, done, discardOnly);
      }
    case _ =>
  }

  lemma {:induction false} ExactSealed(t: Tree, cells: set<object>)
    requires Sealed(t, cells)
    ensures Sealed(Exact(t), cells)
  {
    match t
    case ObjNode(_, kids, _, _) =>
      ExactObject(t);
      forall k | k in kids ensures Sealed(Exact(kids[k]), cells) {
        ExactSealed(kids[k], cells);
      }
    case ArrNode(_, elems, _, _) =>
      ExactArray(t);
      forall i: nat | i < |elems| ensures Sealed(Exact(elems[i]), cells) {
        ExactSealed(elems[i], cells);
      }
    case ReplaceNode(_, _) => ExactAllCells(t);
    case _ =>
  }

  /**
   Resolves a whole value.  Its cells may be shared in any way; only if the handlers are left alone, what they
   refer to must be apart from what is resolved.
   */
  method ResolveInPlace(v: HeapValue, discardOnly: bool, ghost t: Tree) returns (ok: bool, r: HeapValue, ghost t': Tree)
    requires Shows(t, v) && Full(t) && (discardOnly ==> Sealed(t, OuterCells(t)))
    modifies Footprint(t)
    ensures ok <==> !Panics(t, discardOnly)
    ensures ok ==>
              && Shows(t', r) && Full(t') && Snapshot(t') == Resolve(Snapshot(t), discardOnly)
              && Footprint(t') <= Footprint(t)
  {
    ghost var u, nodes := Exact(t), NodesOf(t);
    NothingDone(t, v, discardOnly);
    ExactCovers(t);
    ExactSets(t);
    ExactSnapshot(t);
    ghost var done: set<object>;
    ok, r, done := ResolveValue(v, discardOnly, u, false, nodes, {}, {});
    t' := Resolved(u, discardOnly);
    if ok {
      FinishResolve(t, discardOnly, nodes, done);
    }
  }

  lemma FinishResolve(t: Tree, discardOnly: bool, nodes: Nodes, done: set<object>)
    requires Covers(t) && Full(t) && (discardOnly ==> Sealed(t, OuterCells(t)))
    requires Known(Exact(t), nodes) && Sound(nodes, done, {}, discardOnly)
    requires Visited(Exact(t), done, discardOnly) && done <= VisitedCells(Exact(t), discardOnly)
    ensures var u := Resolved(Exact(t), discardOnly);
            && Covers(u) && Holds(u) && Full(u) && Footprint(u) <= Footprint(t)
            && Snapshot(u) == Resolve(Snapshot(t), discardOnly)
  {
    var u := Exact(t);
    ExactCovers(t);
    ExactSets(t);
    ExactSnapshot(t);
    ResolvedCovers(u, discardOnly);
    ResolvedFull(u, discardOnly);
    ResolvedSnapshot(u, discardOnly);
    if discardOnly {
      ExactSealed(t, OuterCells(t));
      ExactOuterCells(t);
      SealedLess(u, OuterCells(t), done);
    }
    ResolvedHolds(u, nodes, done, discardOnly);
  }

  lemma {:induction false} SealedLess(t: Tree, cells: set<object>, less: set<object>)
    requires Sealed(t, cells) && less <= cells
    ensures Sealed(t, less)
  {
    match t
    case ObjNode(_, kids, _, _) =>
      forall k | k in kids ensures Sealed(kids[k], less) {
        SealedLess(kids[k], cells, less);
      }
    case ArrNode(_, elems, _, _) =>
      forall i: nat | i < |elems| ensures Sealed(elems[i], less) {
        SealedLess(elems[i], cells, less);
      }
    case _ =>
  }

  // ---------------------------------------------------------------------------------------
  // Merge as a whole
  // ---------------------------------------------------------------------------------------

  /**
   jdig.Merge for arguments that share no cells with each other, with the handlers Keep and Replace; the cells
   of the last argument may be shared.  It panics exactly if merging or resolving the snapshots panics, and
   otherwise returns what these give, without any handler or discard marker.
   */
  method MergeCall(objs: array<HeapValue>, ghost trees: seq<Tree>) returns (ok: bool, r: HeapValue, ghost t: Tree)
    requires |trees| == objs.Length && Apart(trees) && Writable(trees) && objs !in Cells(trees)
    requires forall i: nat :: i < |trees| ==> Shows(trees[i], objs[i])
    modifies objs, Cells(trees)
    ensures ok <==> Merged(Snapshots(trees)).Ok?
    ensures ok ==> Shows(t, r) && Full(t) && Merged(Snapshots(trees)) == Ok(Snapshot(t)) && Clean(Snapshot(t))
  {
    JsonHandlers.MergedIsClean(Snapshots(trees));
    if trees != [] {
      FrontInside(trees, 0);
    }
    ghost var merged;
    ok, r, merged := MultiMergeInPlace(objs, trees);
    t := merged;
    if ok {
      ok, r, t := ResolveInPlace(r, false, merged);
      if ok {
        DiscardSnapshot(t);
        if r.HLeaf? && r.v.Discard? {
          r, t := HLeaf(Null), Leaf(Null);
        }
      }
    }
  }
}
