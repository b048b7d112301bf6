/** What calls of Merge and ResolveOnlyDiscard return, field by field, item by item and path by path. */
module JsonCalls {
  import opened Wrappers
  import opened Sequences
  import opened Json
  import opened JsonLaws
  import opened JsonHandlers

  // ---------------------------------------------------------------------------------------
  // One and two arguments
  // ---------------------------------------------------------------------------------------

  /** The discard marker, perhaps in a Replace. */
  predicate Dropped(v: Value) {
    v.Discard? || (v.Replace? && Dropped(v.with))
  }

  lemma {:induction false} DroppedResolves(v: Value)
    ensures Dropped(v) <==> Resolve(v, false).Discard?
  {
    if v.Replace? {
      DroppedResolves(v.with);
    }
  }

  lemma OneArgument(v: Value)
    ensures Merged([v]) == if ResolvePanics(v) then Err(Panic) else Ok(Element(Resolve(v, false)))
  {
  }

  lemma TwoArguments(d: Value, s: Value)
    ensures Merged([d, s]) == if MergePanics(d, s) then Err(Panic) else Merged([Merge(d, s)])
  {
    assert [d, s][1..] == [s] && MultiMerge([s]) == s && !MultiPanics([s]);
    OneArgument(Merge(d, s));
  }

  lemma {:induction false} ItemsResolve(items: seq<Value>, name: string)
    ensures Resolve(Strategic(name, items), false) == Resolve(Arr(items), false)
    ensures ResolvePanics(Strategic(name, items)) <==> ResolvePanics(Arr(items))
  {
    assert Resolve(Strategic(name, items), false).items == Resolve(Arr(items), false).items;
  }

  /** What a value becomes that is the only argument of Merge. */
  lemma {:induction false} AloneBecomes(v: Value)
    ensures Merged([]) == Ok(Null)
    ensures Clean(v) ==> Merged([v]) == Ok(v)
    ensures v.Keep? || v.Discard? ==> Merged([v]) == Ok(Null)
    ensures v.Replace? ==> Merged([v]) == if IsHandler(v.with) then Err(Panic) else Merged([v.with])
    ensures v.Strategic? ==> Merged([v]) == Merged([Arr(v.patch)])
  {
    OneArgument(v);
    if Clean(v) {
      CleanIsResolved(v, false);
    }
    if v.Replace? {
      OneArgument(v.with);
    }
    if v.Strategic? {
      ItemsResolve(v.patch, v.mergeKey);
      OneArgument(Arr(v.patch));
    }
  }

  /** What becomes of d when a source is merged into it that does not merge with what is in d. */
  lemma {:induction false} SourceWins(d: Value, s: Value)
    ensures s.Keep? ==> Merged([d, s]) == Merged([d])
    ensures s.Discard? ==> Merged([d, s]) == Ok(Null)
    ensures s.Replace? ==> Merged([d, s]) == if d.Null? && IsHandler(s.with) then Err(Panic) else Merged([s.with])
    ensures s.Strategic? && !d.Arr? ==> Merge(d, s) == Arr(s.patch) && Merged([d, s]) == Merged([Arr(s.patch)])
    ensures !IsHandler(s) && !SameKind(d, s) ==> Merge(d, s) == s && Merged([d, s]) == Merged([s])
  {
    TwoArguments(d, s);
    AloneBecomes(s);
  }

  // ---------------------------------------------------------------------------------------
  // Objects
  // ---------------------------------------------------------------------------------------

  /** The values that two objects have in a field, as the arguments of Merge. */
  function FieldArguments(a: map<string, Value>, b: map<string, Value>, k: string): seq<Value> {
    (if k in a then [a[k]] else []) + (if k in b then [b[k]] else [])
  }

  /** The outcome has no such field: the last argument discards it, or keeps one that is discarded. */
  predicate FieldGone(args: seq<Value>) {
    args != [] &&
    var last := args[|args| - 1];
    Dropped(if last.Keep? then args[0] else last)
  }

  lemma FieldMerges(a: map<string, Value>, b: map<string, Value>, k: string)
    requires k in a || k in b
    ensures var args, merged := FieldArguments(a, b, k), MergeFields(a, Obj(b), {});
            && k in merged
            && (FieldGone(args) <==> Dropped(merged[k]))
            && (Merged(args).Err? <==> (k in a && k in b && MergePanics(a[k], b[k])) || ResolvePanics(merged[k]))
            && (Merged(args).Ok? ==> Merged(args).value == Element(Resolve(merged[k], false)))
  {
    var merged := MergeFields(a, Obj(b), {});
    OneArgument(merged[k]);
    if k in a && k in b {
      TwoArguments(a[k], b[k]);
      assert FieldArguments(a, b, k) == [a[k], b[k]];
    } else {
      assert FieldArguments(a, b, k) == [merged[k]];
    }
  }

  predicate FieldPanics(a: map<string, Value>, b: map<string, Value>, k: string) {
    Merged(FieldArguments(a, b, k)).Err?
  }

  lemma ObjectsMerge(a: map<string, Value>, b: map<string, Value>)
    ensures Merge(Obj(a), Obj(b)) == Obj(MergeFields(a, Obj(b), {}))
    ensures MergePanics(Obj(a), Obj(b)) <==> exists k :: k in a && k in b && MergePanics(a[k], b[k])
  {
    assert MergePanics(Obj(a), Obj(b)) <==> FieldsPanic(a, Obj(b), {});
  }

  /**
   Merging two objects works field by field, with handlers and markers too: the call panics exactly if it
   would for the values of some field, and otherwise each field is what a call for its values returns,
   except that a discarded field is not there.
   */
  lemma {:induction false} FieldByField(a: map<string, Value>, b: map<string, Value>)
    ensures var r := Merged([Obj(a), Obj(b)]);
            && (r.Err? <==> exists k :: (k in a || k in b) && FieldPanics(a, b, k))
            && (r.Ok? ==>
                  && r.value.Obj?
                  && (forall k :: k in r.value.fields <==> (k in a || k in b) && !FieldGone(FieldArguments(a, b, k)))
                  && (forall k :: k in r.value.fields ==> Merged(FieldArguments(a, b, k)) == Ok(r.value.fields[k])))
  {
    var merged := MergeFields(a, Obj(b), {});
    TwoArguments(Obj(a), Obj(b));
    ObjectsMerge(a, b);
    OneArgument(Obj(merged));
    forall k | k in a || k in b
      ensures var args := FieldArguments(a, b, k);
              && k in merged
              && (FieldGone(args) <==> Resolve(merged[k], false).Discard?)
              && (FieldPanics(a, b, k) <==> (k in a && k in b && MergePanics(a[k], b[k])) || ResolvePanics(merged[k]))
              && (Merged(args).Ok? ==> Merged(args).value == Element(Resolve(merged[k], false)))
    {
      FieldMerges(a, b, k);
      DroppedResolves(merged[k]);
    }
    if k :| k in merged && ResolvePanics(merged[k]) {
      assert FieldPanics(a, b, k);
    }
  }

  /** A patch for a key that the destination does not have becomes its items, in their order. */
  lemma {:induction false} NewFieldBecomesItems(a: map<string, Value>, b: map<string, Value>, k: string)
    requires k !in a && k in b && b[k].Strategic? && Clean(Arr(b[k].patch))
    requires Merged([Obj(a), Obj(b)]).Ok?
    ensures var r := Merged([Obj(a), Obj(b)]).value;
            r.Obj? && k in r.fields && r.fields[k] == Arr(b[k].patch)
  {
    FieldByField(a, b);
    assert FieldArguments(a, b, k) == [b[k]];
    AloneBecomes(b[k]);
    AloneBecomes(Arr(b[k].patch));
  }

  // ---------------------------------------------------------------------------------------
  // Arrays
  // ---------------------------------------------------------------------------------------

  function ItemArguments(a: seq<Value>, b: seq<Value>, i: nat): seq<Value> {
    (if i < |a| then [a[i]] else []) + (if i < |b| then [b[i]] else [])
  }

  predicate ItemPanics(a: seq<Value>, b: seq<Value>, i: nat) {
    Merged(ItemArguments(a, b, i)).Err?
  }

  lemma ItemMerges(a: seq<Value>, b: seq<Value>, i: nat)
    requires i < |a| || i < |b|
    ensures var args, merged := ItemArguments(a, b, i), Merge(Arr(a), Arr(b)).items;
            && i < |merged|
            && (ItemPanics(a, b, i) <==>
                  (i < |a| && i < |b| && MergePanics(a[i], b[i])) || ResolvePanics(merged[i]))
            && (Merged(args).Ok? ==> Merged(args).value == Element(Resolve(merged[i], false)))
  {
    MergeArrays(Arr(a), Arr(b));
    var merged := Merge(Arr(a), Arr(b)).items;
    OneArgument(merged[i]);
    if i < |a| && i < |b| {
      TwoArguments(a[i], b[i]);
      assert ItemArguments(a, b, i) == [a[i], b[i]];
    } else {
      assert ItemArguments(a, b, i) == [merged[i]];
    }
  }

  /** Merging two arrays works item by item; a discarded item leaves a null behind. */
  lemma {:induction false} ItemByItem(a: seq<Value>, b: seq<Value>)
    ensures var r := Merged([Arr(a), Arr(b)]);
            && (r.Err? <==> exists i: nat :: (i < |a| || i < |b|) && ItemPanics(a, b, i))
            && (r.Ok? ==>
                  && r.value.Arr? && |r.value.items| == (if |a| < |b| then |b| else |a|)
                  && forall i: nat :: i < |r.value.items| ==> Merged(ItemArguments(a, b, i)) == Ok(r.value.items[i]))
  {
    var merged := Merge(Arr(a), Arr(b)).items;
    TwoArguments(Arr(a), Arr(b));
    MergeArrays(Arr(a), Arr(b));
    OneArgument(Arr(merged));
    forall i: nat | i < |a| || i < |b|
      ensures var args := ItemArguments(a, b, i);
              && i < |merged|
              && (ItemPanics(a, b, i) <==>
                    (i < |a| && i < |b| && MergePanics(a[i], b[i])) || ResolvePanics(merged[i]))
              && (Merged(args).Ok? ==> Merged(args).value == Element(Resolve(merged[i], false)))
    {
      ItemMerges(a, b, i);
    }
  }

  // ---------------------------------------------------------------------------------------
  // Removing only the markers
  // ---------------------------------------------------------------------------------------

  /** One level of removing the markers. */
  lemma OnlyDiscardChild(v: Value, key: Key)
    ensures var y, z := Child(v, key), Child(ResolveTop(v, true), key);
            z == if y.None? || (key.Name? && y.value.Discard?) then None else Some(ResolveTop(y.value, true))
  {
    if v.Obj? && key.Name? && key.name in v.fields {
      DiscardStays(v.fields[key.name]);
      assert key.name in Resolve(v, true).fields <==> !v.fields[key.name].Discard?;
    } else if v.Arr? && key.Index? && 0 <= key.index < |v.items| {
      assert Resolve(v, true).items[key.index] == Element(Resolve(v.items[key.index], true));
    }
  }

  /**
   ResolveOnlyDiscard changes nothing but the markers: along any path there are the same kinds of containers,
   arrays of the same lengths and the same other values, handlers included; a marker in an object is gone, and
   one in an array, or on its own, is a null.
   */
  lemma {:induction false} OnlyDiscardPath(v: Value, path: seq<Key>)
    ensures var y, z := Lookup(v, path), Lookup(ResolveTop(v, true), path);
            if y.None? then z.None?
            else if y.value.Discard? then z == if path != [] && path[|path| - 1].Name? then None else Some(Null)
            else if y.value.Obj? then z.Some? && z.value.Obj?
            else if y.value.Arr? then z.Some? && z.value.Arr? && |z.value.items| == |y.value.items|
            else z == y
    decreases |path|
  {
    if path != [] {
      OnlyDiscardChild(v, path[0]);
      var y := Child(v, path[0]);
      if y.Some? {
        OnlyDiscardPath(y.value, path[1..]);
        if y.value.Discard? && path[1..] != [] {
          assert Child(Discard, path[1..][0]).None?;
        }
      }
    }
  }
}
