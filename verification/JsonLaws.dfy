/** Laws of merging values whose source is free of handlers. */
module JsonLaws {
  import opened Wrappers
  import opened Json
  import opened Sequences

  // ---------------------------------------------------------------------------------------
  // Paths
  // ---------------------------------------------------------------------------------------

  /** A path element; Other is a Go value that is neither a string nor an int. */
  datatype Key = Name(name: string) | Index(index: int) | Other

  function Child(v: Value, key: Key): (r: Option<Value>)
    ensures r.Some? ==> r.value < v
  {
    match key
    case Name(k) => if v.Obj? && k in v.fields then Some(v.fields[k]) else None
    case Index(i) => if v.Arr? && 0 <= i < |v.items| then Some(v.items[i]) else None
    case Other => None
  }

  function Lookup(v: Value, path: seq<Key>): Option<Value> {
    if path == [] then Some(v)
    else
      var child := Child(v, path[0]);
      if child.None? then None else Lookup(child.value, path[1..])
  }

  /** The length of the longest prefix of path that exists in v. */
  function Depth(v: Value, path: seq<Key>): (n: nat)
    ensures n <= |path|
  {
    if path == [] then 0
    else
      var child := Child(v, path[0]);
      if child.None? then 0 else 1 + Depth(child.value, path[1..])
  }

  lemma {:induction false} DepthIsLongest(v: Value, path: seq<Key>, n: nat)
    requires n <= |path|
    ensures Lookup(v, path[..n]).Some? <==> n <= Depth(v, path)
  {
    if n == 0 {
    } else if Child(v, path[0]).Some? {
      assert path[..n][1..] == path[1..][..n - 1];
      DepthIsLongest(Child(v, path[0]).value, path[1..], n - 1);
    }
  }

  /** The lookup of a longer path goes on from what the shorter one finds. */
  lemma {:induction false} LookupMore(v: Value, path: seq<Key>, key: Key)
    ensures Lookup(v, path + [key]) ==
            var found := Lookup(v, path);
            if found.None? then None else Child(found.value, key)
  {
    if path == [] {
      assert path + [key] == [key] && [key][1..] == [];
    } else {
      assert (path + [key])[0] == path[0] && (path + [key])[1..] == path[1..] + [key];
      if Child(v, path[0]).Some? {
        LookupMore(Child(v, path[0]).value, path[1..], key);
      }
    }
  }

  /**
   One more key finds x exactly if what the path finds is an object with x in the field of that name, or an
   array with x at that index, counted from 0.
   */
  lemma LookupMeans(v: Value, path: seq<Key>, key: Key, x: Value)
    ensures Lookup(v, []) == Some(v)
    ensures Lookup(v, path + [key]) == Some(x) <==>
            match key
            case Name(k) => exists m: map<string, Value> :: Lookup(v, path) == Some(Obj(m)) && k in m && m[k] == x
            case Index(i) => exists a: seq<Value> :: Lookup(v, path) == Some(Arr(a)) && 0 <= i < |a| && a[i] == x
            case Other => false
  {
    LookupMore(v, path, key);
    var found := Lookup(v, path);
    if found.Some? && found.value.Obj? {
      assert found == Some(Obj(found.value.fields));
    } else if found.Some? && found.value.Arr? {
      assert found == Some(Arr(found.value.items));
    }
  }

  /** The query reaches a key of a type that AnyExists does not know. */
  predicate BadKey(v: Value, path: seq<Key>) {
    path != [] && !v.Null? &&
    (path[0].Other? || (Child(v, path[0]).Some? && BadKey(Child(v, path[0]).value, path[1..])))
  }

  /** Exactly if such a key follows a path at which there is a value other than null. */
  lemma {:induction false} BadKeyMeans(v: Value, path: seq<Key>)
    ensures BadKey(v, path) <==>
            exists n: nat :: n < |path| && path[n].Other? && Lookup(v, path[..n]).Some? && Lookup(v, path[..n]) != Some(Null)
  {
    if path != [] {
      var key, rest := path[0], path[1..];
      assert path[..0] == [];
      if Child(v, key).Some? {
        BadKeyMeans(Child(v, key).value, rest);
      }
      forall n: nat | 0 < n <= |path|
        ensures Lookup(v, path[..n]) == if Child(v, key).None? then None else Lookup(Child(v, key).value, rest[..n - 1])
      {
        assert path[..n][1..] == rest[..n - 1];
      }
      assert forall n: nat :: 0 < n < |path| ==> path[n] == rest[n - 1];
      if BadKey(v, path) {
        if key.Other? {
          assert path[0].Other? && Lookup(v, path[..0]) == Some(v);
        } else {
          var n: nat :| n < |rest| && rest[n].Other? && Lookup(Child(v, key).value, rest[..n]).Some?
            && Lookup(Child(v, key).value, rest[..n]) != Some(Null);
          assert path[n + 1].Other? && Lookup(v, path[..n + 1]) == Lookup(Child(v, key).value, rest[..n]);
        }
      }
    }
  }

  /**
   AnyExists: the value at the path, or null, and whether a non-empty path exists.  It panics
   exactly when the query reaches a key that is neither a string nor an int.
   */
  method AnyExists(root: Value, keys: seq<Key>) returns (r: Result<(Value, bool), Panic>)
    ensures BadKey(root, keys) ==> r == Err(Panic)
    ensures !BadKey(root, keys) ==>
              var found := Lookup(root, keys);
              r == Ok((if found.Some? then found.value else Null, keys != [] && found.Some?))
  {
    var v, exists' := root, false;
    var i := 0;
    while i < |keys|
      invariant 0 <= i <= |keys|
      invariant i < |keys| ==> !exists'
      invariant i == |keys| ==> exists' == (keys != [] && Lookup(root, keys).Some?)
      invariant Lookup(root, keys) == Lookup(v, keys[i..]) || (v.Null? && Lookup(root, keys).None?)
      invariant BadKey(root, keys) == BadKey(v, keys[i..])
    {
      if v.Null? {
        break;
      }
      assert keys[i..][1..] == keys[i + 1..];
      match keys[i] {
        case Name(key) =>
          if v.Obj? {
            var found := key in v.fields;
            v := if found then v.fields[key] else Null;
            if found && i == |keys| - 1 {
              exists' := true;
            }
          } else {
            v := Null;
          }
        case Index(key) =>
          if v.Arr? && 0 <= key < |v.items| {
            v := v.items[key];
            if i == |keys| - 1 {
              exists' := true;
            }
          } else {
            v := Null;
          }
        case Other =>
          return Err(Panic);
      }
      i := i + 1;
    }
    r := Ok((v, exists'));
  }

  // ---------------------------------------------------------------------------------------
  // The path law
  // ---------------------------------------------------------------------------------------

  /** Merging two objects, field by field. */
  lemma MergeObjects(a: Value, b: Value)
    requires a.Obj? && b.Obj?
    ensures var m := Merge(a, b);
            && m.Obj? && m.fields.Keys == a.fields.Keys + b.fields.Keys
            && forall k :: k in m.fields ==>
                 m.fields[k] ==
                 if k !in b.fields then a.fields[k]
                 else if k in a.fields then Merge(a.fields[k], b.fields[k])
                 else b.fields[k]
  {
    assert Merge(a, b).fields == MergeFields(a.fields, b, {});
  }

  /** Merging two arrays, index by index; the longer one keeps its tail. */
  lemma MergeArrays(a: Value, b: Value)
    requires a.Arr? && b.Arr?
    ensures var m := Merge(a, b);
            && m.Arr? && |m.items| == |a.items| + |b.items| - Min(|a.items|, |b.items|)
            && forall i: nat :: i < |m.items| ==>
                 m.items[i] ==
                 if i >= |b.items| then a.items[i]
                 else if i < |a.items| then Merge(a.items[i], b.items[i])
                 else b.items[i]
  {
  }

  /** A handler-free source never makes the merge panic, and leaves no handler of its own. */
  lemma {:induction false} PlainMerge(dst: Value, src: Value)
    requires Plain(src)
    ensures !MergePanics(dst, src)
    ensures Plain(dst) ==> Plain(Merge(dst, src))
    decreases src
  {
    match src
    case Obj(m) =>
      if dst.Obj? {
        forall k | k in m && k in dst.fields
          ensures !MergePanics(dst.fields[k], m[k])
          ensures Plain(dst) ==> Plain(Merge(dst.fields[k], m[k]))
        {
          PlainMerge(dst.fields[k], m[k]);
        }
      }
    case Arr(b) =>
      if dst.Arr? {
        forall i: nat | i < |b| && i < |dst.items|
          ensures !MergePanics(dst.items[i], b[i])
          ensures Plain(dst) ==> Plain(Merge(dst.items[i], b[i]))
        {
          PlainMerge(dst.items[i], b[i]);
        }
      }
    case _ =>
  }

  /** One level of the path law. */
  lemma MergeChild(a: Value, b: Value, key: Key)
    requires Plain(b)
    ensures var x, y, z := Child(a, key), Child(b, key), Child(Merge(a, b), key);
            if y.Some? then
              Plain(y.value) && z == Some(if x.Some? then Merge(x.value, y.value) else y.value)
            else z == if SameKind(a, b) then x else None
  {
  }

  /**
   What a lookup finds after a merge.  Where the path exists in b, it finds b's value, merged into
   a's value if the path exists there too.  Elsewhere it finds exactly what it finds in a, provided
   that a and b have the same kind of container where the path leaves b, and otherwise nothing.
   */
  lemma {:induction false} MergePath(a: Value, b: Value, path: seq<Key>)
    requires Plain(b)
    ensures var x, y, z := Lookup(a, path), Lookup(b, path), Lookup(Merge(a, b), path);
            var prefix := path[..Depth(b, path)];
            var u, w := Lookup(a, prefix), Lookup(b, prefix);
            && w.Some?
            && z ==
               if y.Some? then Some(if x.Some? then Merge(x.value, y.value) else y.value)
               else if u.Some? && SameKind(u.value, w.value) then x
               else None
    decreases |path|
  {
    if path == [] {
    } else {
      MergeChild(a, b, path[0]);
      var x, y := Child(a, path[0]), Child(b, path[0]);
      DepthIsLongest(b, path, Depth(b, path));
      if y.Some? {
        var rest := path[1..];
        assert path[..Depth(b, path)][1..] == rest[..Depth(y.value, rest)];
        if x.Some? {
          MergePath(x.value, y.value, rest);
        } else {
          DepthIsLongest(y.value, rest, Depth(y.value, rest));
        }
      }
    }
  }

  predicate HandlerAt(v: Value, path: seq<Key>) {
    var x := Lookup(v, path);
    x.Some? && IsHandler(x.value)
  }

  predicate MarkerAt(v: Value, path: seq<Key>) {
    Lookup(v, path) == Some(Discard)
  }

  lemma LookupBelow(v: Value, key: Key, path: seq<Key>)
    requires Child(v, key).Some?
    ensures Lookup(v, [key] + path) == Lookup(Child(v, key).value, path)
  {
    assert ([key] + path)[1..] == path;
  }

  lemma {:induction false} PlainHasNoHandler(v: Value, path: seq<Key>)
    ensures Plain(v) ==> !HandlerAt(v, path)
    ensures Clean(v) ==> !HandlerAt(v, path) && !MarkerAt(v, path)
    decreases |path|
  {
    if path != [] && Child(v, path[0]).Some? {
      PlainHasNoHandler(Child(v, path[0]).value, path[1..]);
    }
  }

  /** The key of a child that has a handler, or a marker if that counts. */
  lemma ChildWithHandler(v: Value, clean: bool) returns (key: Key)
    requires IsContainer(v) && if clean then !Clean(v) else !Plain(v)
    ensures Child(v, key).Some?
    ensures var x := Child(v, key).value; if clean then !Clean(x) else !Plain(x)
  {
    if v.Obj? {
      var k :| k in v.fields && if clean then !Clean(v.fields[k]) else !Plain(v.fields[k]);
      key := Name(k);
    } else {
      var i: nat :| i < |v.items| && if clean then !Clean(v.items[i]) else !Plain(v.items[i]);
      key := Index(i);
    }
  }

  lemma {:induction false} PathToHandler(v: Value, clean: bool) returns (path: seq<Key>)
    requires if clean then !Clean(v) else !Plain(v)
    ensures HandlerAt(v, path) || (clean && MarkerAt(v, path))
  {
    if IsContainer(v) {
      var key := ChildWithHandler(v, clean);
      var below := PathToHandler(Child(v, key).value, clean);
      LookupBelow(v, key, below);
      path := [key] + below;
    } else {
      path := [];
    }
  }

  /** A value is handler-free if there is no path to a handler, and clean if there is none to a marker either. */
  lemma {:induction false} PlainMeans(v: Value)
    ensures Plain(v) <==> forall path :: !HandlerAt(v, path)
    ensures Clean(v) <==> forall path :: !HandlerAt(v, path) && !MarkerAt(v, path)
  {
    forall path: seq<Key>
      ensures Plain(v) ==> !HandlerAt(v, path)
      ensures Clean(v) ==> !HandlerAt(v, path) && !MarkerAt(v, path)
    {
      PlainHasNoHandler(v, path);
    }
    if !Plain(v) {
      var path := PathToHandler(v, false);
    }
    if !Clean(v) {
      var path := PathToHandler(v, true);
    }
  }

  // ---------------------------------------------------------------------------------------
  // Idempotence and associativity
  // ---------------------------------------------------------------------------------------

  /** Merging a value into itself changes nothing. */
  lemma {:induction false} MergeSelf(v: Value)
    requires Plain(v)
    ensures Merge(v, v) == v
  {
    match v
    case Obj(m) =>
      forall k | k in m ensures Merge(m[k], m[k]) == m[k] {
        MergeSelf(m[k]);
      }
      assert MergeFields(m, v, {}) == m;
    case Arr(a) =>
      forall i: nat | i < |a| ensures Merge(a[i], a[i]) == a[i] {
        MergeSelf(a[i]);
      }
      assert Merge(v, v).items == a;
    case _ =>
  }

  /** Applying a patch a second time changes nothing, whatever it is applied to. */
  lemma {:induction false} MergeTwice(a: Value, b: Value)
    requires Plain(b)
    ensures Merge(Merge(a, b), b) == Merge(a, b)
    decreases b
  {
    var m := Merge(a, b);
    if !SameKind(a, b) {
      MergeSelf(b);
    } else if b.Obj? {
      MergeObjects(a, b);
      MergeObjects(m, b);
      forall k | k in b.fields ensures Merge(m.fields[k], b.fields[k]) == m.fields[k] {
        if k in a.fields {
          MergeTwice(a.fields[k], b.fields[k]);
        } else {
          MergeSelf(b.fields[k]);
        }
      }
      assert Merge(m, b).fields == m.fields;
    } else {
      MergeArrays(a, b);
      MergeArrays(m, b);
      forall i: nat | i < |b.items| ensures Merge(m.items[i], b.items[i]) == m.items[i] {
        if i < |a.items| {
          MergeTwice(a.items[i], b.items[i]);
        } else {
          MergeSelf(b.items[i]);
        }
      }
      assert Merge(m, b).items == m.items;
    }
  }

  /** Every part of a that a merge with c would keep is in c as well. */
  predicate Covered(a: Value, c: Value) {
    match c
    case Obj(m) => a.Obj? ==> forall k :: k in a.fields ==> k in m && Covered(a.fields[k], m[k])
    case Arr(s) => a.Arr? ==> |a.items| <= |s| && forall i: nat :: i < |a.items| ==> Covered(a.items[i], s[i])
    case _ => true
  }

  lemma {:induction false} CoveredMeans(a: Value, c: Value)
    requires Plain(c)
    ensures Covered(a, c) <==> Merge(a, c) == c
    decreases c
  {
    var m := Merge(a, c);
    if !SameKind(a, c) {
    } else if c.Obj? {
      MergeObjects(a, c);
      forall k | k in a.fields && k in c.fields
        ensures Covered(a.fields[k], c.fields[k]) <==> m.fields[k] == c.fields[k]
      {
        CoveredMeans(a.fields[k], c.fields[k]);
      }
      if Covered(a, c) {
        assert m.fields == c.fields;
      } else {
        var k :| k in a.fields && !(k in c.fields && Covered(a.fields[k], c.fields[k]));
        assert k in m.fields;
      }
    } else {
      MergeArrays(a, c);
      forall i: nat | i < |a.items| && i < |c.items|
        ensures Covered(a.items[i], c.items[i]) <==> m.items[i] == c.items[i]
      {
        CoveredMeans(a.items[i], c.items[i]);
      }
      if Covered(a, c) {
        assert m.items == c.items;
      }
    }
  }

  /**
   Wherever a and c are containers of one kind and b is something else, b would cut a's part off
   in a left fold; so c has to cover that part.
   */
  predicate Associates(a: Value, b: Value, c: Value) {
    SameKind(a, c) ==>
      if !SameKind(a, b) then Covered(a, c)
      else match c
        case Obj(m) =>
          forall k :: k in m && k in a.fields && k in b.fields ==> Associates(a.fields[k], b.fields[k], m[k])
        case Arr(s) =>
          forall i: nat :: i < |s| && i < |a.items| && i < |b.items| ==>
            Associates(a.items[i], b.items[i], s[i])
  }

  /** The right fold of three values equals their left fold if and only if Associates holds. */
  lemma {:induction false} MergeAssociates(a: Value, b: Value, c: Value)
    requires Plain(b) && Plain(c)
    ensures Merge(a, Merge(b, c)) == Merge(Merge(a, b), c) <==> Associates(a, b, c)
    decreases c, 2
  {
    if !SameKind(a, c) || !SameKind(a, b) {
      CoveredMeans(a, c);
    } else if c.Obj? {
      AssociatesInFields(a, b, c);
    } else {
      AssociatesInItems(a, b, c);
    }
  }

  /** The two folds give the same field k. */
  predicate SameField(a: Value, b: Value, c: Value, k: string)
    requires a.Obj? && b.Obj? && c.Obj?
  {
    k in a.fields && k in b.fields && k in c.fields ==> Associates(a.fields[k], b.fields[k], c.fields[k])
  }

  lemma {:induction false} AssociatesInField(a: Value, b: Value, c: Value, k: string)
    requires Plain(b) && Plain(c) && a.Obj? && b.Obj? && c.Obj?
    ensures var right, left := Merge(a, Merge(b, c)), Merge(Merge(a, b), c);
            && right.Obj? && left.Obj? && (k in right.fields <==> k in left.fields)
            && (k in right.fields ==> (right.fields[k] == left.fields[k] <==> SameField(a, b, c, k)))
            && (!SameField(a, b, c, k) ==> k in right.fields)
    decreases c, 0
  {
    MergeObjects(b, c);
    MergeObjects(a, Merge(b, c));
    MergeObjects(a, b);
    MergeObjects(Merge(a, b), c);
    if k in a.fields && k in b.fields && k in c.fields {
      MergeAssociates(a.fields[k], b.fields[k], c.fields[k]);
    }
  }

  lemma {:induction false} AssociatesInFields(a: Value, b: Value, c: Value)
    requires Plain(b) && Plain(c) && a.Obj? && b.Obj? && c.Obj?
    ensures Merge(a, Merge(b, c)) == Merge(Merge(a, b), c) <==> Associates(a, b, c)
    decreases c, 1
  {
    var right, left := Merge(a, Merge(b, c)), Merge(Merge(a, b), c);
    forall k ensures k in right.fields <==> k in left.fields
      ensures k in right.fields ==> (right.fields[k] == left.fields[k] <==> SameField(a, b, c, k))
      ensures !SameField(a, b, c, k) ==> k in right.fields
    {
      AssociatesInField(a, b, c, k);
    }
    FieldsDecide(right.fields, left.fields, a, b, c);
  }

  lemma FieldsDecide(right: map<string, Value>, left: map<string, Value>, a: Value, b: Value, c: Value)
    requires a.Obj? && b.Obj? && c.Obj? && right.Keys == left.Keys
    requires forall k :: k in right ==> (right[k] == left[k] <==> SameField(a, b, c, k))
    requires forall k :: !SameField(a, b, c, k) ==> k in right
    ensures right == left <==> Associates(a, b, c)
  {
    if Associates(a, b, c) {
      assert forall k :: k in right ==> SameField(a, b, c, k);
    } else {
      var k :| k in c.fields && k in a.fields && k in b.fields
        && !Associates(a.fields[k], b.fields[k], c.fields[k]);
      assert !SameField(a, b, c, k);
    }
  }

  /** The two folds give the same item i. */
  predicate SameItem(a: Value, b: Value, c: Value, i: nat)
    requires a.Arr? && b.Arr? && c.Arr?
  {
    i < |a.items| && i < |b.items| && i < |c.items| ==> Associates(a.items[i], b.items[i], c.items[i])
  }

  lemma {:induction false} AssociatesInItem(a: Value, b: Value, c: Value, i: nat)
    requires Plain(b) && Plain(c) && a.Arr? && b.Arr? && c.Arr?
    ensures var right, left := Merge(a, Merge(b, c)), Merge(Merge(a, b), c);
            && right.Arr? && left.Arr? && |right.items| == |left.items|
            && (i < |right.items| ==> (right.items[i] == left.items[i] <==> SameItem(a, b, c, i)))
            && (!SameItem(a, b, c, i) ==> i < |right.items|)
    decreases c, 0
  {
    MergeArrays(b, c);
    MergeArrays(a, Merge(b, c));
    MergeArrays(a, b);
    MergeArrays(Merge(a, b), c);
    if i < |a.items| && i < |b.items| && i < |c.items| {
      MergeAssociates(a.items[i], b.items[i], c.items[i]);
    }
  }

  lemma {:induction false} AssociatesInItems(a: Value, b: Value, c: Value)
    requires Plain(b) && Plain(c) && a.Arr? && b.Arr? && c.Arr?
    ensures Merge(a, Merge(b, c)) == Merge(Merge(a, b), c) <==> Associates(a, b, c)
    decreases c, 1
  {
    var right, left := Merge(a, Merge(b, c)), Merge(Merge(a, b), c);
    AssociatesInItem(a, b, c, 0);
    forall i: nat
      ensures i < |right.items| ==> (right.items[i] == left.items[i] <==> SameItem(a, b, c, i))
      ensures !SameItem(a, b, c, i) ==> i < |right.items|
    {
      AssociatesInItem(a, b, c, i);
    }
    ItemsDecide(right.items, left.items, a, b, c);
  }

  lemma ItemsDecide(right: seq<Value>, left: seq<Value>, a: Value, b: Value, c: Value)
    requires a.Arr? && b.Arr? && c.Arr? && |right| == |left|
    requires forall i: nat :: i < |right| ==> (right[i] == left[i] <==> SameItem(a, b, c, i))
    requires forall i: nat :: !SameItem(a, b, c, i) ==> i < |right|
    ensures right == left <==> Associates(a, b, c)
  {
    if Associates(a, b, c) {
      assert forall i: nat :: i < |right| ==> SameItem(a, b, c, i);
    } else {
      var i: nat :| i < |c.items| && i < |a.items| && i < |b.items|
        && !Associates(a.items[i], b.items[i], c.items[i]);
      assert !SameItem(a, b, c, i);
    }
  }

  predicate ClashAt(a: Value, b: Value, c: Value, path: seq<Key>) {
    var x, y, z := Lookup(a, path), Lookup(b, path), Lookup(c, path);
    x.Some? && y.Some? && z.Some? && SameKind(x.value, z.value) && !SameKind(x.value, y.value)
  }

  /** On no shared path do a and c have one kind of container and b another kind of value. */
  ghost predicate NoClash(a: Value, b: Value, c: Value) {
    forall path: seq<Key> :: !ClashAt(a, b, c, path)
  }

  lemma NoClashBelow(a: Value, b: Value, c: Value, key: Key)
    requires NoClash(a, b, c)
    requires Child(a, key).Some? && Child(b, key).Some? && Child(c, key).Some?
    ensures NoClash(Child(a, key).value, Child(b, key).value, Child(c, key).value)
  {
    forall path: seq<Key>
      ensures !ClashAt(Child(a, key).value, Child(b, key).value, Child(c, key).value, path)
    {
      assert Lookup(a, [key] + path) == Lookup(Child(a, key).value, path);
      assert Lookup(b, [key] + path) == Lookup(Child(b, key).value, path);
      assert Lookup(c, [key] + path) == Lookup(Child(c, key).value, path);
      assert !ClashAt(a, b, c, [key] + path);
    }
  }

  /** Without such a clash on any path the two folds agree. */
  lemma {:induction false} NoClashAssociates(a: Value, b: Value, c: Value)
    requires NoClash(a, b, c)
    ensures Associates(a, b, c)
    decreases c
  {
    assert !ClashAt(a, b, c, []);
    if SameKind(a, c) {
      if c.Obj? {
        forall k | k in c.fields && k in a.fields && k in b.fields
          ensures Associates(a.fields[k], b.fields[k], c.fields[k])
        {
          NoClashBelow(a, b, c, Name(k));
          NoClashAssociates(a.fields[k], b.fields[k], c.fields[k]);
        }
      } else {
        forall i: nat | i < |c.items| && i < |a.items| && i < |b.items|
          ensures Associates(a.items[i], b.items[i], c.items[i])
        {
          NoClashBelow(a, b, c, Index(i));
          NoClashAssociates(a.items[i], b.items[i], c.items[i]);
        }
      }
    }
  }

  /** The order of folding matters: {x: 1}, 5, {y: 2} keeps x only from right to left. */
  lemma FoldsDiffer()
    ensures var a, b, c := Obj(map["x" := Scalar(1)]), Scalar(5), Obj(map["y" := Scalar(2)]);
            MultiMerge([a, b, c]) != MultiMerge([MultiMerge([a, b]), c])
  {
    var a, b, c := Obj(map["x" := Scalar(1)]), Scalar(5), Obj(map["y" := Scalar(2)]);
    assert MultiMerge([b, c]) == Merge(b, c) == c;
    assert [a, b, c][1..] == [b, c];
    assert "x" in Merge(a, c).fields;
    assert MultiMerge([a, b]) == Merge(a, b) == b;
  }
}
