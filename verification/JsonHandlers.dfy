/** Laws of resolving handlers and discard markers, and of merging lists that contain them. */
module JsonHandlers {
  import opened Wrappers
  import opened Json
  import opened JsonLaws

  /** Resolving leaves no handler and no marker below the top, and no handler at the top. */
  lemma {:induction false} ResolveCleans(v: Value)
    ensures Clean(Element(Resolve(v, false)))
  {
    match v
    case Obj(m) =>
      forall k | k in m ensures Clean(Element(Resolve(m[k], false))) {
        ResolveCleans(m[k]);
      }
    case Arr(a) =>
      forall i: nat | i < |a| ensures Clean(Element(Resolve(a[i], false))) {
        ResolveCleans(a[i]);
      }
    case Replace(w) => ResolveCleans(w);
    case Strategic(_, a) =>
      forall i: nat | i < |a| ensures Clean(Element(Resolve(a[i], false))) {
        ResolveCleans(a[i]);
      }
    case _ =>
  }

  /** A value without handlers and markers is its own resolution and never panics. */
  lemma {:induction false} CleanIsResolved(v: Value, discardOnly: bool)
    requires Clean(v)
    ensures Resolve(v, discardOnly) == v && !ResolvePanics(v)
  {
    match v
    case Obj(m) =>
      forall k | k in m ensures Resolve(m[k], discardOnly) == m[k] && !m[k].Discard? && !ResolvePanics(m[k]) {
        CleanIsResolved(m[k], discardOnly);
      }
      assert Resolve(v, discardOnly).fields == m;
    case Arr(a) =>
      forall i: nat | i < |a| ensures Resolve(a[i], discardOnly) == a[i] && !ResolvePanics(a[i]) {
        CleanIsResolved(a[i], discardOnly);
      }
      assert Resolve(v, discardOnly).items == a;
    case _ =>
  }

  /** Merge either panics or returns a value without any handler or marker, at any depth. */
  lemma MergedIsClean(objs: seq<Value>)
    ensures var r := Merged(objs);
            r.Ok? ==> Clean(r.value) && Merged([r.value]) == r
  {
    var v := MultiMerge(objs);
    ResolveCleans(v);
    CleanIsResolved(ResolveTop(v, false), false);
  }

  /** Resolving only the markers leaves a value a marker exactly if it was one. */
  lemma DiscardStays(v: Value)
    ensures Resolve(v, true).Discard? <==> v.Discard?
  {
  }

  /** Removing the markers first and resolving the rest later is the same as resolving at once. */
  lemma {:induction false} ResolveInTwoPasses(v: Value)
    ensures Resolve(Resolve(v, true), false) == Resolve(v, false)
    ensures ResolvePanics(Resolve(v, true)) <==> ResolvePanics(v)
  {
    var w := Resolve(v, true);
    match v
    case Obj(m) =>
      forall k | k in m
        ensures k in w.fields <==> !m[k].Discard?
        ensures k in w.fields ==>
                  Resolve(w.fields[k], false) == Resolve(m[k], false)
                  && (ResolvePanics(w.fields[k]) <==> ResolvePanics(m[k]))
      {
        DiscardStays(m[k]);
        ResolveInTwoPasses(m[k]);
      }
      assert forall k :: k in w.fields ==> k in m;
      assert Resolve(w, false).fields == Resolve(v, false).fields;
      if ResolvePanics(v) {
        var k :| k in m && ResolvePanics(m[k]);
        assert k in w.fields && ResolvePanics(w.fields[k]);
      }
    case Arr(a) =>
      forall i: nat | i < |a|
        ensures Element(Resolve(w.items[i], false)) == Element(Resolve(a[i], false))
        ensures ResolvePanics(w.items[i]) <==> ResolvePanics(a[i])
      {
        DiscardStays(a[i]);
        ResolveInTwoPasses(a[i]);
      }
      assert Resolve(w, false).items == Resolve(v, false).items;
      if ResolvePanics(v) {
        var i: nat :| i < |a| && ResolvePanics(a[i]);
        assert ResolvePanics(w.items[i]);
      }
    case _ =>
  }

  /** The same for the exported calls, ResolveOnlyDiscard followed by Merge. */
  lemma DiscardThenMerge(v: Value)
    ensures Merged([ResolveTop(v, true)]) == Merged([v])
  {
    ResolveInTwoPasses(v);
    DiscardStays(v);
  }

  /**
   Merging goes from right to left, so the last values can be merged beforehand, without
   resolving them, and that changes neither the result nor whether the call panics.
   */
  lemma {:induction false} MergeSuffixFirst(front: seq<Value>, back: seq<Value>)
    requires back != []
    ensures MultiMerge(front + back) == MultiMerge(front + [MultiMerge(back)])
    ensures MultiPanics(front + back) <==> MultiPanics(back) || MultiPanics(front + [MultiMerge(back)])
  {
    var merged := MultiMerge(back);
    if front == [] {
      assert front + back == back && front + [merged] == [merged];
    } else {
      assert (front + back)[1..] == front[1..] + back;
      assert (front + [merged])[1..] == front[1..] + [merged];
      MergeSuffixFirst(front[1..], back);
    }
  }

  lemma MergeCons(a: Value, objs: seq<Value>)
    requires objs != []
    ensures MultiMerge([a] + objs) == Merge(a, MultiMerge(objs))
  {
    assert ([a] + objs)[1..] == objs;
  }

  /**
   Merging a prefix beforehand is another matter: for handler-free patches b and c it gives the
   same result if and only if c covers what b would cut off.
   */
  lemma MergePrefixFirst(a: Value, b: Value, c: Value)
    requires Plain(b) && Plain(c)
    ensures MultiMerge([MultiMerge([a, b]), c]) == MultiMerge([a, b, c]) <==> Associates(a, b, c)
  {
    MergeCons(a, [b, c]);
    MergeCons(b, [c]);
    MergeCons(a, [b]);
    MergeCons(MultiMerge([a, b]), [c]);
    assert [a] + [b, c] == [a, b, c] && [b] + [c] == [b, c] && [a] + [b] == [a, b];
    assert [MultiMerge([a, b])] + [c] == [MultiMerge([a, b]), c];
    MergeAssociates(a, b, c);
  }

  /** Merging handler-free values never panics, and neither does resolving the outcome. */
  lemma {:induction false} PlainListMerges(objs: seq<Value>)
    requires forall i: nat | i < |objs| :: Plain(objs[i])
    ensures !MultiPanics(objs) && Plain(MultiMerge(objs)) && !ResolvePanics(MultiMerge(objs))
  {
    if |objs| <= 1 {
      PlainNeverPanics(MultiMerge(objs));
    } else {
      PlainListMerges(objs[1..]);
      PlainMerge(objs[0], MultiMerge(objs[1..]));
      PlainNeverPanics(MultiMerge(objs));
    }
  }

  lemma {:induction false} PlainNeverPanics(v: Value)
    requires Plain(v)
    ensures !ResolvePanics(v)
  {
    match v
    case Obj(m) =>
      forall k | k in m ensures !ResolvePanics(m[k]) {
        PlainNeverPanics(m[k]);
      }
    case Arr(a) =>
      forall i: nat | i < |a| ensures !ResolvePanics(a[i]) {
        PlainNeverPanics(a[i]);
      }
    case _ =>
  }

  // ---------------------------------------------------------------------------------------
  // Arguments that cannot panic
  // ---------------------------------------------------------------------------------------

  /** At any depth, no Replace has a handler in it, and every patch has a directive that is known, or none. */
  predicate Tame(v: Value) {
    match v
    case Obj(m) => forall k :: k in m ==> Tame(m[k])
    case Arr(a) => forall i: nat :: i < |a| ==> Tame(a[i])
    case Replace(w) => !IsHandler(w) && Tame(w)
    case Strategic(_, a) =>
      forall i: nat :: i < |a| ==> Tame(a[i]) && KeyOf(a[i], PATCH_KEY) in {"", "merge", "replace", "delete"}
    case _ => true
  }

  predicate AllTame(items: seq<Value>) {
    forall i: nat :: i < |items| ==> Tame(items[i])
  }

  lemma {:induction false} TameMerge(dst: Value, src: Value)
    requires Tame(dst) && Tame(src)
    ensures !MergePanics(dst, src) && Tame(Merge(dst, src))
    decreases src, 2
  {
    match src
    case Obj(_) =>
      if dst.Obj? {
        TameFields(dst, src, {});
      }
    case Arr(b) =>
      if dst.Arr? {
        forall i: nat | i < |dst.items| && i < |b|
          ensures !MergePanics(dst.items[i], b[i]) && Tame(Merge(dst.items[i], b[i]))
        {
          TameMerge(dst.items[i], b[i]);
        }
      }
    case Strategic(_, patch) =>
      if dst.Arr? {
        TameFromDst(dst.items, src, {});
        TameFromSrc(patch, src.mergeKey, Processed(dst.items, src));
      }
    case _ =>
  }

  lemma {:induction false} TameFields(dst: Value, src: Value, drop: set<string>)
    requires Tame(dst) && dst.Obj? && Tame(src) && src.Obj?
    ensures !FieldsPanic(dst.fields, src, drop) && Tame(Obj(MergeFields(dst.fields, src, drop)))
    decreases src, 1
  {
    forall k | k in dst.fields && k in src.fields
      ensures !MergePanics(dst.fields[k], src.fields[k]) && Tame(Merge(dst.fields[k], src.fields[k]))
    {
      TameMerge(dst.fields[k], src.fields[k]);
    }
  }

  lemma TameWithoutPatch(v: Value)
    requires Tame(v)
    ensures Tame(WithoutPatch(v))
  {
  }

  lemma {:induction false} TameFromDst(dst: seq<Value>, src: Value, seen: set<string>)
    requires AllTame(dst) && Tame(src) && src.Strategic?
    ensures !KeyedPanics(dst, src, seen) && AllTame(FromDst(dst, src, seen))
    decreases src, 0, |dst|
  {
    if dst != [] {
      TameFromDst(dst[1..], src, seen);
      TameFromDst(dst[1..], src, seen + {KeyOf(dst[0], src.mergeKey)});
      var j := Partner(dst[0], src);
      if j.Some? {
        TameFields(dst[0], src.patch[j.value], {PATCH_KEY});
        TameWithoutPatch(src.patch[j.value]);
      }
    }
  }

  lemma {:induction false} TameFromSrc(patch: seq<Value>, keyName: string, processed: set<string>)
    requires AllTame(patch)
    ensures AllTame(FromSrc(patch, keyName, processed))
  {
    if patch != [] {
      TameWithoutPatch(patch[0]);
      TameFromSrc(patch[1..], keyName, processed);
    }
  }

  lemma {:induction false} TameResolves(v: Value)
    requires Tame(v)
    ensures !ResolvePanics(v)
  {
    match v
    case Obj(m) =>
      forall k | k in m ensures !ResolvePanics(m[k]) {
        TameResolves(m[k]);
      }
    case Arr(a) =>
      forall i: nat | i < |a| ensures !ResolvePanics(a[i]) {
        TameResolves(a[i]);
      }
    case Replace(w) => TameResolves(w);
    case Strategic(_, a) =>
      forall i: nat | i < |a| ensures !ResolvePanics(a[i]) {
        TameResolves(a[i]);
      }
    case _ =>
  }

  lemma {:induction false} TameMultiMerge(objs: seq<Value>)
    requires AllTame(objs)
    ensures !MultiPanics(objs) && Tame(MultiMerge(objs))
  {
    if |objs| > 1 {
      TameMultiMerge(objs[1..]);
      TameMerge(objs[0], MultiMerge(objs[1..]));
    }
  }

  /** A call of Merge whose arguments are tame returns. */
  lemma TameArgumentsMerge(objs: seq<Value>)
    requires AllTame(objs)
    ensures Merged(objs).Ok?
  {
    TameMultiMerge(objs);
    TameResolves(MultiMerge(objs));
  }

  // ---------------------------------------------------------------------------------------
  // When a call panics
  // ---------------------------------------------------------------------------------------

  /** No StrategicMerge at any depth, except inside of a Replace, into which merging does not look. */
  predicate Unpatched(v: Value) {
    match v
    case Obj(m) => forall k :: k in m ==> Unpatched(m[k])
    case Arr(a) => forall i: nat :: i < |a| ==> Unpatched(a[i])
    case _ => !v.Strategic?
  }

  /** No StrategicMerge at any depth. */
  predicate PatchFree(v: Value) {
    match v
    case Obj(m) => forall k :: k in m ==> PatchFree(m[k])
    case Arr(a) => forall i: nat :: i < |a| ==> PatchFree(a[i])
    case Replace(w) => PatchFree(w)
    case _ => !v.Strategic?
  }

  lemma {:induction false} PatchFreeIsUnpatched(v: Value)
    requires PatchFree(v)
    ensures Unpatched(v)
  {
    match v
    case Obj(m) =>
      forall k | k in m ensures Unpatched(m[k]) {
        PatchFreeIsUnpatched(m[k]);
      }
    case Arr(a) =>
      forall i: nat | i < |a| ensures Unpatched(a[i]) {
        PatchFreeIsUnpatched(a[i]);
      }
    case _ =>
  }

  /** A null of dst and a Replace around a handler of src are at the same path. */
  predicate NullMeets(dst: Value, src: Value, path: seq<Key>) {
    && Lookup(dst, path) == Some(Null)
    && var s := Lookup(src, path);
       s.Some? && s.value.Replace? && IsHandler(s.value.with)
  }

  predicate Share(dst: Value, src: Value, key: Key) {
    Child(dst, key).Some? && Child(src, key).Some?
  }

  lemma NullMeetsBelow(dst: Value, src: Value, key: Key, path: seq<Key>)
    requires Share(dst, src, key)
    ensures NullMeets(dst, src, [key] + path) <==> NullMeets(Child(dst, key).value, Child(src, key).value, path)
  {
    assert ([key] + path)[1..] == path;
  }

  lemma MergePanicsAbove(dst: Value, src: Value, key: Key)
    requires Share(dst, src, key) && MergePanics(Child(dst, key).value, Child(src, key).value)
    ensures MergePanics(dst, src)
  {
  }

  lemma MergePanicsBelow(dst: Value, src: Value) returns (key: Key)
    requires IsContainer(src) && MergePanics(dst, src)
    ensures Share(dst, src, key) && MergePanics(Child(dst, key).value, Child(src, key).value)
  {
    if src.Obj? {
      var k :| k in dst.fields && k in src.fields && MergePanics(dst.fields[k], src.fields[k]);
      key := Name(k);
    } else {
      var i: nat :| i < |dst.items| && i < |src.items| && MergePanics(dst.items[i], src.items[i]);
      key := Index(i);
    }
  }

  lemma UnpatchedChild(v: Value, key: Key)
    requires Unpatched(v) && Child(v, key).Some?
    ensures Unpatched(Child(v, key).value)
  {
  }

  /** Where a merge that panics finds its reason. */
  lemma {:induction false} PanicHasPath(dst: Value, src: Value) returns (path: seq<Key>)
    requires Unpatched(src) && MergePanics(dst, src)
    ensures NullMeets(dst, src, path)
  {
    if IsContainer(src) {
      var key := MergePanicsBelow(dst, src);
      UnpatchedChild(src, key);
      var below := PanicHasPath(Child(dst, key).value, Child(src, key).value);
      NullMeetsBelow(dst, src, key, below);
      path := [key] + below;
    } else {
      path := [];
    }
  }

  lemma {:induction false} PathMakesPanic(dst: Value, src: Value, path: seq<Key>)
    requires NullMeets(dst, src, path)
    ensures MergePanics(dst, src)
  {
    if path == [] {
    } else {
      var key := path[0];
      assert [key] + path[1..] == path;
      NullMeetsBelow(dst, src, key, path[1..]);
      PathMakesPanic(Child(dst, key).value, Child(src, key).value, path[1..]);
      MergePanicsAbove(dst, src, key);
    }
  }

  /** Without StrategicMerge in the source, a merge panics exactly if a null meets a Replace around a handler. */
  lemma {:induction false} MergePanicsIff(dst: Value, src: Value)
    requires Unpatched(src)
    ensures MergePanics(dst, src) <==> exists path :: NullMeets(dst, src, path)
  {
    if MergePanics(dst, src) {
      var path := PanicHasPath(dst, src);
    }
    forall path | NullMeets(dst, src, path) ensures MergePanics(dst, src) {
      PathMakesPanic(dst, src, path);
    }
  }

  /** The value w is v or inside of it, in containers, in a Replace or in a patch. */
  predicate Inside(v: Value, w: Value) {
    || v == w
    || match v
       case Obj(m) => exists k :: k in m && Inside(m[k], w)
       case Arr(a) => exists i: nat :: i < |a| && Inside(a[i], w)
       case Replace(x) => Inside(x, w)
       case Strategic(_, a) => exists i: nat :: i < |a| && Inside(a[i], w)
       case _ => false
  }

  lemma {:induction false} PanicHasReplace(v: Value) returns (h: Value)
    requires ResolvePanics(v)
    ensures IsHandler(h) && Inside(v, Replace(h))
  {
    match v
    case Obj(m) =>
      var k :| k in m && ResolvePanics(m[k]);
      h := PanicHasReplace(m[k]);
    case Arr(a) =>
      var i: nat :| i < |a| && ResolvePanics(a[i]);
      h := PanicHasReplace(a[i]);
    case Strategic(_, a) =>
      var i: nat :| i < |a| && ResolvePanics(a[i]);
      h := PanicHasReplace(a[i]);
    case Replace(w) =>
      if IsHandler(w) {
        h := w;
      } else {
        h := PanicHasReplace(w);
      }
  }

  lemma {:induction false} ReplaceMakesPanic(v: Value, h: Value)
    requires IsHandler(h) && Inside(v, Replace(h))
    ensures ResolvePanics(v)
  {
    if v != Replace(h) {
      match v
      case Obj(m) =>
        var k :| k in m && Inside(m[k], Replace(h));
        ReplaceMakesPanic(m[k], h);
      case Arr(a) =>
        var i: nat :| i < |a| && Inside(a[i], Replace(h));
        ReplaceMakesPanic(a[i], h);
      case Strategic(_, a) =>
        var i: nat :| i < |a| && Inside(a[i], Replace(h));
        ReplaceMakesPanic(a[i], h);
      case Replace(w) => ReplaceMakesPanic(w, h);
    }
  }

  /** Resolving panics exactly if a Replace around a handler is left, at whatever depth. */
  lemma {:induction false} ResolvePanicsIff(v: Value)
    ensures ResolvePanics(v) <==> exists h :: IsHandler(h) && Inside(v, Replace(h))
  {
    if ResolvePanics(v) {
      var h := PanicHasReplace(v);
    }
    forall h | IsHandler(h) && Inside(v, Replace(h)) ensures ResolvePanics(v) {
      ReplaceMakesPanic(v, h);
    }
  }

  lemma {:induction false} PatchFreeMerge(dst: Value, src: Value)
    requires PatchFree(dst) && PatchFree(src)
    ensures PatchFree(Merge(dst, src))
    decreases src
  {
    match src
    case Obj(m) =>
      if dst.Obj? {
        forall k | k in dst.fields && k in m ensures PatchFree(Merge(dst.fields[k], m[k])) {
          PatchFreeMerge(dst.fields[k], m[k]);
        }
        MergeObjects(dst, src);
      }
    case Arr(a) =>
      if dst.Arr? {
        forall i: nat | i < |dst.items| && i < |a| ensures PatchFree(Merge(dst.items[i], a[i])) {
          PatchFreeMerge(dst.items[i], a[i]);
        }
        MergeArrays(dst, src);
      }
    case _ =>
  }

  predicate AllPatchFree(items: seq<Value>) {
    forall i: nat :: i < |items| ==> PatchFree(items[i])
  }

  lemma {:induction false} PatchFreeMultiMerge(objs: seq<Value>)
    requires AllPatchFree(objs)
    ensures PatchFree(MultiMerge(objs))
  {
    if |objs| > 1 {
      PatchFreeMultiMerge(objs[1..]);
      PatchFreeMerge(objs[0], MultiMerge(objs[1..]));
    }
  }

  /** In the merge of the values from the right, the turn of value i panics at the path. */
  predicate TurnPanics(objs: seq<Value>, i: nat, path: seq<Key>) {
    i + 1 < |objs| && NullMeets(objs[i], MultiMerge(objs[i + 1..]), path)
  }

  lemma {:induction false} MultiPanicsIff(objs: seq<Value>)
    requires AllPatchFree(objs)
    ensures MultiPanics(objs) <==> exists i: nat, path :: TurnPanics(objs, i, path)
  {
    if |objs| > 1 {
      var rest := objs[1..];
      PatchFreeMultiMerge(rest);
      PatchFreeIsUnpatched(MultiMerge(rest));
      MergePanicsIff(objs[0], MultiMerge(rest));
      MultiPanicsIff(rest);
      forall i: nat, path | i > 0 ensures TurnPanics(objs, i, path) <==> TurnPanics(rest, i - 1, path) {
        assert i < |objs| ==> rest[i..] == objs[i + 1..];
      }
      if MergePanics(objs[0], MultiMerge(rest)) {
        var path :| NullMeets(objs[0], MultiMerge(rest), path);
        assert TurnPanics(objs, 0, path);
      } else if MultiPanics(rest) {
        var i: nat, path :| TurnPanics(rest, i, path);
        assert TurnPanics(objs, i + 1, path);
      }
    }
  }

  /**
   Without StrategicMerge, Merge panics exactly if in one of its turns a null meets a Replace
   around a handler, or if such a Replace is left in the end.
   */
  lemma MergedPanicsIff(objs: seq<Value>)
    requires AllPatchFree(objs)
    ensures Merged(objs).Err? <==>
            || (exists i: nat, path :: TurnPanics(objs, i, path))
            || (exists h :: IsHandler(h) && Inside(MultiMerge(objs), Replace(h)))
  {
    MultiPanicsIff(objs);
    ResolvePanicsIff(MultiMerge(objs));
  }
}
