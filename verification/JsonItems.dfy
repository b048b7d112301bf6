/** The keyed array merge of jdig.StrategicMerge in terms of the fields of the items. */
module JsonItems {
  import opened Wrappers
  import opened Json
  import opened JsonStrategic

  /** The item is an object with this string in this field. */
  predicate HasField(item: Value, name: string, text: string) {
    item.Obj? && name in item.fields && item.fields[name] == Str(text)
  }

  /** A key that is not empty is read exactly from an object that has it as a string. */
  lemma KeyOfMeans(item: Value, name: string, key: string)
    requires key != ""
    ensures KeyOf(item, name) == key <==> HasField(item, name, key)
  {
  }

  // ---------------------------------------------------------------------------------------
  // Few items
  // ---------------------------------------------------------------------------------------

  /** An item of the source without its directive. */
  function Undirected(p: map<string, Value>): Value {
    Obj(p - {"$patch"})
  }

  /** The directive of an item of the source. */
  predicate Directs(p: map<string, Value>, directive: string) {
    if directive == "" then "$patch" !in p || !p["$patch"].Str? || p["$patch"] == Str("")
    else "$patch" in p && p["$patch"] == Str(directive)
  }

  lemma OnePartner(item: Value, name: string, p: map<string, Value>)
    requires KeyOf(item, name) != ""
    ensures Partner(item, Strategic(name, [Obj(p)])) ==
            if KeyOf(item, name) == KeyOf(Obj(p), name) then Some(0) else None
  {
    var patch := [Obj(p)];
    assert patch[..0] == [];
  }

  lemma OneLeft(name: string, p: map<string, Value>, processed: set<string>)
    requires name != "$patch" && KeyOf(Obj(p), name) != ""
    ensures FromSrc([Obj(p)], name, processed) == if KeyOf(Obj(p), name) in processed then [] else [Undirected(p)]
  {
    assert [Obj(p)][1..] == [];
    assert KeyOf(Undirected(p), name) == KeyOf(Obj(p), name);
    assert [Undirected(p)] + [] == [Undirected(p)];
  }

  /** One round of the first loop, for a destination item that has a partner. */
  lemma OneRound(m: map<string, Value>, rest: seq<Value>, name: string, p: map<string, Value>, seen: set<string>)
    requires KeyOf(Obj(m), name) == KeyOf(Obj(p), name) != ""
    ensures var src, more := Strategic(name, [Obj(p)]), seen + {KeyOf(Obj(m), name)};
            var directive := if KeyOf(Obj(m), name) in seen then "" else KeyOf(Obj(p), "$patch");
            && FromDst([Obj(m)] + rest, src, seen) ==
               (if directive == "replace" then [Undirected(p)]
                else if directive == "delete" then []
                else [Merge(Obj(m), Undirected(p))]) + FromDst(rest, src, more)
            && (KeyedPanics([Obj(m)] + rest, src, seen) <==>
                  || directive !in {"", "merge", "replace", "delete"}
                  || (directive in {"", "merge"} && MergePanics(Obj(m), Undirected(p)))
                  || KeyedPanics(rest, src, more))
  {
    var src, dst := Strategic(name, [Obj(p)]), [Obj(m)] + rest;
    OnePartner(Obj(m), name, p);
    DstStep(dst, src, 0, seen);
    assert dst[0..] == dst && dst[1..] == rest;
  }

  /**
   An item of the destination and one of the source with the same key: the source item is merged in, takes
   its place or removes it, as its directive says, without the directive; an unknown directive panics.
   */
  lemma SameKey(m: map<string, Value>, p: map<string, Value>, name: string, key: string)
    requires name != "$patch" && key != "" && HasField(Obj(m), name, key) && HasField(Obj(p), name, key)
    ensures var dst, src := Arr([Obj(m)]), Strategic(name, [Obj(p)]);
            && (Directs(p, "") || Directs(p, "merge") ==>
                  && Merge(dst, src) == Arr([Merge(Obj(m), Undirected(p))])
                  && (MergePanics(dst, src) <==> MergePanics(Obj(m), Undirected(p))))
            && (Directs(p, "replace") ==> Merge(dst, src) == Arr([Undirected(p)]) && !MergePanics(dst, src))
            && (Directs(p, "delete") ==> Merge(dst, src) == Arr([]) && !MergePanics(dst, src))
            && ((forall d :: d in {"", "merge", "replace", "delete"} ==> !Directs(p, d)) ==> MergePanics(dst, src))
  {
    var src := Strategic(name, [Obj(p)]);
    OneRound(m, [], name, p, {});
    assert [Obj(m)] + [] == [Obj(m)];
    OnePartner(Obj(m), name, p);
    ProcessedStep([Obj(m)], src, 0);
    assert [Obj(m)][..1] == [Obj(m)] && [Obj(m)][..0] == [] && Processed([], src) == {};
    OneLeft(name, p, {key});
    assert Processed([Obj(m)], src) == {key};
    assert forall v: Value :: [v] + [] + [] == [v];
    assert !Directs(p, "") && !Directs(p, "merge") && !Directs(p, "replace") && !Directs(p, "delete")
      <==> forall d :: d in {"", "merge", "replace", "delete"} ==> !Directs(p, d);
  }

  /** With different keys the destination item stays as it is, and the source item follows it. */
  lemma OtherKey(m: map<string, Value>, p: map<string, Value>, name: string, key: string, other: string)
    requires name != "$patch" && key != "" && other != "" && key != other
    requires HasField(Obj(m), name, key) && HasField(Obj(p), name, other)
    ensures var dst, src := Arr([Obj(m)]), Strategic(name, [Obj(p)]);
            Merge(dst, src) == Arr([Obj(m), Undirected(p)]) && !MergePanics(dst, src)
  {
    var src := Strategic(name, [Obj(p)]);
    OnePartner(Obj(m), name, p);
    DstStep([Obj(m)], src, 0, {});
    assert [Obj(m)][0..] == [Obj(m)] && [Obj(m)][1..] == [] && [Obj(m)] + [] == [Obj(m)];
    OneLeft(name, p, Processed([Obj(m)], src));
    assert [Obj(m)] + [Undirected(p)] == [Obj(m), Undirected(p)];
  }

  /** A directive is used once: a second destination item with the key is merged with what is left. */
  lemma DirectiveUsedOnce(m: map<string, Value>, m': map<string, Value>, p: map<string, Value>, name: string, key: string)
    requires name != "$patch" && key != "" && Directs(p, "delete")
    requires HasField(Obj(m), name, key) && HasField(Obj(m'), name, key) && HasField(Obj(p), name, key)
    ensures Merge(Arr([Obj(m), Obj(m')]), Strategic(name, [Obj(p)])) == Arr([Merge(Obj(m'), Undirected(p))])
  {
    var dst, src := [Obj(m), Obj(m')], Strategic(name, [Obj(p)]);
    OneRound(m, [Obj(m')], name, p, {});
    OneRound(m', [], name, p, {key});
    assert [Obj(m)] + [Obj(m')] == dst && [Obj(m')] + [] == [Obj(m')];
    OnePartner(Obj(m), name, p);
    assert Partner(dst[0], src).Some? && key in Processed(dst, src);
    OneLeft(name, p, Processed(dst, src));
    var v := Merge(Obj(m'), Undirected(p));
    assert [] + ([v] + []) + [] == [v];
  }

  lemma {:induction false} AllAppended(patch: seq<Value>, name: string)
    ensures |FromSrc(patch, name, {})| == |patch|
    ensures forall i: nat :: i < |patch| ==> FromSrc(patch, name, {})[i] == WithoutPatch(patch[i])
  {
    if patch != [] {
      AllAppended(patch[1..], name);
      assert forall i: nat :: 0 < i < |patch| ==> patch[1..][i - 1] == patch[i];
    }
  }

  lemma {:induction false} AllKept(dst: seq<Value>, name: string, seen: set<string>)
    ensures FromDst(dst, Strategic(name, []), seen) == dst && !KeyedPanics(dst, Strategic(name, []), seen)
  {
    if dst != [] {
      assert Partner(dst[0], Strategic(name, [])).None?;
      AllKept(dst[1..], name, seen);
      assert [dst[0]] + dst[1..] == dst;
    }
  }

  /** Without any item on the one side, those on the other side are the result, in their order. */
  lemma OneSideOnly(dst: seq<Value>, patch: seq<Value>, name: string)
    ensures Merge(Arr(dst), Strategic(name, [])) == Arr(dst)
    ensures var result := Merge(Arr([]), Strategic(name, patch));
            && result.Arr? && |result.items| == |patch|
            && forall i: nat :: i < |patch| ==>
                 result.items[i] == if patch[i].Obj? then Undirected(patch[i].fields) else patch[i]
  {
    AllKept(dst, name, {});
    assert FromSrc([], name, Processed(dst, Strategic(name, []))) == [] && dst + [] == dst;
    AllAppended(patch, name);
    var src: Value := Strategic(name, patch);
    assert Processed([], src) == {} && FromDst([], src, {}) == [];
    assert [] + FromSrc(patch, name, {}) == FromSrc(patch, name, {});
    assert MergeKeyed([], src) == FromSrc(src.patch, src.mergeKey, {});
    assert Merge(Arr([]), src).items == MergeKeyed([], src);
  }

  // ---------------------------------------------------------------------------------------
  // Many items
  // ---------------------------------------------------------------------------------------

  /** No two items have the same key that is not empty. */
  ghost predicate OneEach(items: seq<Value>, name: string) {
    forall i: nat, j: nat, key ::
      i < j < |items| && key != "" && HasField(items[i], name, key) ==> !HasField(items[j], name, key)
  }

  lemma OneEachMeans(items: seq<Value>, name: string)
    ensures OneEach(items, name) <==>
            forall i: nat, j: nat ::
              i < j < |items| && KeyOf(items[i], name) != "" ==> KeyOf(items[i], name) != KeyOf(items[j], name)
  {
    forall i: nat, key | i < |items| && key != "" ensures KeyOf(items[i], name) == key <==> HasField(items[i], name, key) {
      KeyOfMeans(items[i], name, key);
    }
    if !OneEach(items, name) {
      var i: nat, j: nat, key :| i < j < |items| && key != "" && HasField(items[i], name, key) && HasField(items[j], name, key);
      assert KeyOf(items[i], name) == key == KeyOf(items[j], name);
    } else {
      forall i: nat, j: nat | i < j < |items| && KeyOf(items[i], name) != ""
        ensures KeyOf(items[i], name) != KeyOf(items[j], name)
      {
        assert HasField(items[i], name, KeyOf(items[i], name));
      }
    }
  }

  predicate HasItem(items: seq<Value>, name: string, key: string) {
    exists i: nat :: i < |items| && HasField(items[i], name, key)
  }

  lemma {:induction false} OneEachIsDistinct(items: seq<Value>, name: string)
    ensures OneEach(items, name) <==> Distinct(Keys(items, name))
  {
    if items != [] {
      var key, rest := KeyOf(items[0], name), items[1..];
      OneEachIsDistinct(rest, name);
      OneEachMeans(items, name);
      OneEachMeans(rest, name);
      assert forall i: nat :: 0 < i < |items| ==> items[i] == rest[i - 1];
      assert OneEach(items, name) ==> OneEach(rest, name);
      if key == "" {
        assert Keys(items, name) == Keys(rest, name);
      } else {
        KeyInKeys(rest, name, key);
        assert ([key] + Keys(rest, name))[1..] == Keys(rest, name);
        assert key in Keys(rest, name) <==> exists i: nat :: 0 < i < |items| && KeyOf(items[i], name) == key;
      }
    }
  }

  lemma HasItemIsKey(items: seq<Value>, name: string, key: string)
    requires key != ""
    ensures HasItem(items, name, key) <==> key in Keys(items, name)
  {
    KeyInKeys(items, name, key);
    forall i: nat | i < |items| ensures KeyOf(items[i], name) == key <==> HasField(items[i], name, key) {
      KeyOfMeans(items[i], name, key);
    }
  }

  /** The source has an item with this key that asks to delete the destination's. */
  predicate AsksToDelete(patch: seq<Value>, name: string, key: string) {
    exists j: nat :: j < |patch| && HasField(patch[j], name, key) && HasField(patch[j], "$patch", "delete")
  }

  lemma DeletesMeans(patch: seq<Value>, name: string, key: string)
    requires key != "" && OneEach(patch, name)
    ensures Deletes(Strategic(name, patch), key) <==> AsksToDelete(patch, name, key)
  {
    forall j: nat | j < |patch|
      ensures KeyOf(patch[j], name) == key <==> HasField(patch[j], name, key)
      ensures KeyOf(patch[j], "$patch") == "delete" <==> HasField(patch[j], "$patch", "delete")
    {
      KeyOfMeans(patch[j], name, key);
      KeyOfMeans(patch[j], "$patch", "delete");
    }
    if j: nat :| j < |patch| && HasField(patch[j], name, key) {
      OneEachMeans(patch, name);
      var last := LastWith(patch, name, key);
      assert last.Some? && last.value == j;
    }
  }

  /**
   If no key occurs twice in the destination or in the source, none occurs twice in the result, and a key
   is in the result exactly if the destination has it and the source does not ask to delete it, or only
   the source has it.
   */
  lemma ResultItems(dst: seq<Value>, name: string, patch: seq<Value>, key: string)
    requires name != "$patch" && OneEach(dst, name) && OneEach(patch, name) && key != ""
    ensures var result := MergeKeyed(dst, Strategic(name, patch));
            && OneEach(result, name)
            && (HasItem(result, name, key) <==>
                  if HasItem(dst, name, key) then !AsksToDelete(patch, name, key) else HasItem(patch, name, key))
  {
    var src := Strategic(name, patch);
    OneEachIsDistinct(dst, name);
    OneEachIsDistinct(patch, name);
    ResultKeys(dst, src);
    OneEachIsDistinct(MergeKeyed(dst, src), name);
    HasItemIsKey(dst, name, key);
    HasItemIsKey(patch, name, key);
    HasItemIsKey(MergeKeyed(dst, src), name, key);
    DeletesMeans(patch, name, key);
  }

  lemma {:induction false} RewrittenIn(dst: seq<Value>, src: Value, i: nat, v: Value)
    requires src.Strategic? && i < |dst| && v in Rewrite(dst[i], src)
    ensures v in RewriteAll(dst, src)
  {
    if i > 0 {
      assert dst[1..][i - 1] == dst[i];
      RewrittenIn(dst[1..], src, i - 1, v);
    }
  }

  lemma RewrittenInResult(dst: seq<Value>, src: Value, i: nat, v: Value)
    requires src.Strategic? && src.mergeKey != PATCH_KEY && OneEach(dst, src.mergeKey)
    requires i < |dst| && v in Rewrite(dst[i], src)
    ensures v in MergeKeyed(dst, src)
  {
    OneEachIsDistinct(dst, src.mergeKey);
    KeyedMergeIs(dst, src);
    RewrittenIn(dst, src, i, v);
  }

  lemma NoPartner(item: Value, name: string, patch: seq<Value>)
    requires forall key :: key != "" && HasField(item, name, key) ==> !HasItem(patch, name, key)
    ensures Partner(item, Strategic(name, patch)).None?
  {
    var key := KeyOf(item, name);
    if key != "" {
      KeyOfMeans(item, name, key);
      HasItemIsKey(patch, name, key);
      KeyInKeys(patch, name, key);
    }
  }

  /** A destination item without a key, or whose key the source does not have, stays as it is. */
  lemma ItemStays(dst: seq<Value>, name: string, patch: seq<Value>, i: nat)
    requires name != "$patch" && OneEach(dst, name) && i < |dst|
    requires forall key :: key != "" && HasField(dst[i], name, key) ==> !HasItem(patch, name, key)
    ensures dst[i] in MergeKeyed(dst, Strategic(name, patch))
  {
    NoPartner(dst[i], name, patch);
    RewrittenInResult(dst, Strategic(name, patch), i, dst[i]);
  }

  lemma PartnerIs(item: Value, name: string, patch: seq<Value>, j: nat, key: string)
    requires OneEach(patch, name) && j < |patch| && key != "" && HasField(item, name, key) && HasField(patch[j], name, key)
    ensures Partner(item, Strategic(name, patch)) == Some(j)
  {
    KeyOfMeans(item, name, key);
    KeyOfMeans(patch[j], name, key);
    OneEachMeans(patch, name);
    var last := LastWith(patch, name, key);
    assert last.Some?;
  }

  lemma RewriteByPartner(item: Value, src: Value, p: map<string, Value>)
    requires src.Strategic? && Partner(item, src).Some? && src.patch[Partner(item, src).value] == Obj(p)
    ensures Directs(p, "") || Directs(p, "merge") ==> Rewrite(item, src) == [Merge(item, Undirected(p))]
    ensures Directs(p, "replace") ==> Rewrite(item, src) == [Undirected(p)]
  {
  }

  /** A destination item whose key the source has is merged with that item, or replaced by it. */
  lemma ItemMeets(dst: seq<Value>, name: string, patch: seq<Value>, i: nat, j: nat, key: string)
    requires name != "$patch" && OneEach(dst, name) && OneEach(patch, name) && i < |dst| && j < |patch| && key != ""
    requires HasField(dst[i], name, key) && HasField(patch[j], name, key)
    ensures var result, p := MergeKeyed(dst, Strategic(name, patch)), patch[j].fields;
            && (Directs(p, "") || Directs(p, "merge") ==> Merge(dst[i], Undirected(p)) in result)
            && (Directs(p, "replace") ==> Undirected(p) in result)
  {
    var src, p := Strategic(name, patch), patch[j].fields;
    PartnerIs(dst[i], name, patch, j, key);
    RewriteByPartner(dst[i], src, p);
    if Directs(p, "") || Directs(p, "merge") {
      RewrittenInResult(dst, src, i, Merge(dst[i], Undirected(p)));
    } else if Directs(p, "replace") {
      RewrittenInResult(dst, src, i, Undirected(p));
    }
  }

  lemma {:induction false} AppendedIn(patch: seq<Value>, name: string, before: seq<string>, j: nat)
    requires j < |patch| && KeyOf(patch[j], name) !in before
    ensures WithoutPatch(patch[j]) in NewItems(patch, name, before)
  {
    if j > 0 {
      assert patch[1..][j - 1] == patch[j];
      AppendedIn(patch[1..], name, before, j - 1);
    }
  }

  /** A source item without a key, or whose key the destination does not have, is in the result. */
  lemma ItemIsNew(dst: seq<Value>, name: string, patch: seq<Value>, j: nat)
    requires name != "$patch" && OneEach(dst, name) && j < |patch|
    requires forall key :: key != "" && HasField(patch[j], name, key) ==> !HasItem(dst, name, key)
    ensures (if patch[j].Obj? then Undirected(patch[j].fields) else patch[j]) in MergeKeyed(dst, Strategic(name, patch))
  {
    OneEachIsDistinct(dst, name);
    KeyedMergeIs(dst, Strategic(name, patch));
    var key := KeyOf(patch[j], name);
    KeysAreNonEmpty(dst, name);
    if key != "" {
      KeyOfMeans(patch[j], name, key);
      HasItemIsKey(dst, name, key);
    }
    AppendedIn(patch, name, Keys(dst, name), j);
  }
}
