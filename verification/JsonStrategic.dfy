/** The keyed array merge of jdig.StrategicMerge: its loops, and what they amount to. */
module JsonStrategic {
  import opened Wrappers
  import opened Json
  import opened Sequences

  // ---------------------------------------------------------------------------------------
  // The loops
  // ---------------------------------------------------------------------------------------

  lemma MergeWithoutPatch(item: Value, patch: Value)
    requires item.Obj? && patch.Obj?
    ensures Merge(item, WithoutPatch(patch)) == Obj(MergeFields(item.fields, patch, {PATCH_KEY}))
    ensures MergePanics(item, WithoutPatch(patch)) <==> FieldsPanic(item.fields, patch, {PATCH_KEY})
  {
    var w := WithoutPatch(patch);
    assert MergeFields(item.fields, w, {}) == MergeFields(item.fields, patch, {PATCH_KEY});
    if FieldsPanic(item.fields, w, {}) {
      var k :| k in item.fields && k in w.fields && MergePanics(item.fields[k], w.fields[k]);
      assert k in patch.fields && k != PATCH_KEY;
    }
    if FieldsPanic(item.fields, patch, {PATCH_KEY}) {
      var k :| k in item.fields && k in patch.fields && k !in {PATCH_KEY}
        && MergePanics(item.fields[k], patch.fields[k]);
      assert k in w.fields && k !in {};
    }
  }

  /** keyedSrc sends every non-empty key of patch to the last item that has it. */
  ghost predicate Indexes(keyedSrc: map<string, nat>, patch: seq<Value>, keyName: string) {
    forall key: string :: key != "" ==>
      LastWith(patch, keyName, key) == if key in keyedSrc then Some(keyedSrc[key]) else None
  }

  /** The first loop: later items overwrite earlier ones with the same key. */
  method IndexByKey(patch: seq<Value>, keyName: string) returns (keyedSrc: map<string, nat>)
    ensures Indexes(keyedSrc, patch, keyName) && "" !in keyedSrc
  {
    keyedSrc := map[];
    for i := 0 to |patch|
      invariant Indexes(keyedSrc, patch[..i], keyName) && "" !in keyedSrc
    {
      var key := KeyOf(patch[i], keyName);
      assert patch[..i + 1][..i] == patch[..i];
      if key != "" {
        keyedSrc := keyedSrc[key := i];
      }
    }
    assert patch[..|patch|] == patch;
  }

  /** The directive of an item that shares its key with processed ones is gone. */
  ghost predicate Trimmed(item: Value, was: Value, last: bool, processed: set<string>, keyName: string) {
    item == if last && KeyOf(was, keyName) in processed then WithoutPatch(was) else was
  }

  ghost predicate AllTrimmed(items: seq<Value>, src: Value, keyedSrc: map<string, nat>, processed: set<string>)
    requires src.Strategic?
  {
    && |items| == |src.patch|
    && forall j: nat :: j < |items| ==>
         var key := KeyOf(src.patch[j], src.mergeKey);
         Trimmed(items[j], src.patch[j], key in keyedSrc && keyedSrc[key] == j, processed, src.mergeKey)
  }

  lemma TrimStep(items: seq<Value>, src: Value, keyedSrc: map<string, nat>, processed: set<string>, key: string)
    requires src.Strategic? && Indexes(keyedSrc, src.patch, src.mergeKey)
    requires AllTrimmed(items, src, keyedSrc, processed)
    requires key != "" && key in keyedSrc
    ensures var j := keyedSrc[key];
            && j < |items| && KeyOf(src.patch[j], src.mergeKey) == key
            && KeyOf(items[j], PATCH_KEY) == (if key in processed then "" else KeyOf(src.patch[j], PATCH_KEY))
            && WithoutPatch(items[j]) == WithoutPatch(src.patch[j])
            && AllTrimmed(items[j := WithoutPatch(items[j])], src, keyedSrc, processed + {key})
  {
    var j := keyedSrc[key];
    assert LastWith(src.patch, src.mergeKey, key) == Some(j);
    var was := src.patch[j];
    assert Trimmed(items[j], was, true, processed, src.mergeKey);
    assert WithoutPatch(WithoutPatch(was)) == WithoutPatch(was);
  }

  /** One round of the loop over the destination, as seen by its specification. */
  lemma DstStep(dst: seq<Value>, src: Value, i: nat, seen: set<string>)
    requires src.Strategic? && i < |dst|
    ensures var item, j := dst[i], Partner(dst[i], src);
            var rest, more := dst[i + 1..], seen + {KeyOf(dst[i], src.mergeKey)};
            if j.None? then
              && FromDst(dst[i..], src, seen) == [item] + FromDst(rest, src, seen)
              && KeyedPanics(dst[i..], src, seen) == KeyedPanics(rest, src, seen)
            else
              var srcM, directive := WithoutPatch(src.patch[j.value]), Directive(item, src, seen);
              && FromDst(dst[i..], src, seen) ==
                 (if directive == "replace" then [srcM]
                  else if directive == "delete" then []
                  else [Merge(item, srcM)]) + FromDst(rest, src, more)
              && KeyedPanics(dst[i..], src, seen) ==
                 (|| directive !in {"", "merge", "replace", "delete"}
                  || (directive in {"", "merge"} && MergePanics(item, srcM))
                  || KeyedPanics(rest, src, more))
  {
    assert dst[i..][0] == dst[i] && dst[i..][1..] == dst[i + 1..];
    var j := Partner(dst[i], src);
    if j.Some? {
      MergeWithoutPatch(dst[i], src.patch[j.value]);
    }
  }

  /**
   The second loop, over the destination.  The source maps are updated in place: the position of
   an item stands for the identity of its map.
   */
  method MergeDst(dst: seq<Value>, ghost src: Value, mergeKey: string, patch: seq<Value>, keyedSrc: map<string, nat>)
    returns (ok: bool, retval: seq<Value>, items: seq<Value>, processed: set<string>)
    requires src == Strategic(mergeKey, patch)
    requires Indexes(keyedSrc, patch, mergeKey) && "" !in keyedSrc
    ensures ok <==> !KeyedPanics(dst, src, {})
    ensures ok ==> retval == FromDst(dst, src, {}) && processed == Processed(dst, src)
    ensures ok ==> AllTrimmed(items, src, keyedSrc, processed)
  {
    ok, items, processed, retval := true, patch, {}, [];
    for i := 0 to |dst|
      invariant ok && processed == Processed(dst[..i], src)
      invariant AllTrimmed(items, src, keyedSrc, processed)
      invariant retval + FromDst(dst[i..], src, processed) == FromDst(dst, src, {})
      invariant KeyedPanics(dst, src, {}) == KeyedPanics(dst[i..], src, processed)
    {
      var item := dst[i];
      var key := KeyOf(item, mergeKey);
      DstStep(dst, src, i, processed);
      ProcessedStep(dst, src, i);
      if key == "" || key !in keyedSrc {
        Regroup(retval, [item], FromDst(dst[i + 1..], src, processed));
        retval := retval + [item];
        continue;
      }
      var j := keyedSrc[key];
      assert Partner(item, src) == Some(j);
      TrimStep(items, src, keyedSrc, processed, key);
      var directive := KeyOf(items[j], PATCH_KEY);
      var srcM := WithoutPatch(items[j]);
      items := items[j := srcM];
      processed := processed + {key};
      ghost var rest := FromDst(dst[i + 1..], src, processed);
      if directive == "replace" {
        Regroup(retval, [srcM], rest);
        retval := retval + [srcM];
      } else if directive == "" || directive == "merge" {
        if MergePanics(item, srcM) {
          ok := false;
          return;
        }
        Regroup(retval, [Merge(item, srcM)], rest);
        retval := retval + [Merge(item, srcM)];
      } else if directive == "delete" {
        assert [] + rest == rest;
      } else {
        ok := false;
        return;
      }
    }
    assert dst[..|dst|] == dst;
  }

  /** One round of the loop over the source, as seen by its specification. */
  lemma SrcStep(first: seq<Value>, patch: seq<Value>, mergeKey: string, processed: set<string>, i: nat)
    requires i < |patch|
    ensures var item := WithoutPatch(patch[i]);
            var key := KeyOf(item, mergeKey);
            var more := if key == "" || key !in processed then first + [item] else first;
            first + FromSrc(patch[i..], mergeKey, processed) == more + FromSrc(patch[i + 1..], mergeKey, processed)
  {
    assert patch[i..][0] == patch[i] && patch[i..][1..] == patch[i + 1..];
    var rest := FromSrc(patch[i + 1..], mergeKey, processed);
    Regroup(first, [WithoutPatch(patch[i])], rest);
    assert [] + rest == rest;
  }

  /** The third loop, over the source: every item loses its directive, also when it is not kept. */
  method AppendSrc(first: seq<Value>, patch: seq<Value>, trimmed: seq<Value>, mergeKey: string, processed: set<string>)
    returns (retval: seq<Value>)
    requires |trimmed| == |patch|
    requires forall j: nat :: j < |patch| ==> WithoutPatch(trimmed[j]) == WithoutPatch(patch[j])
    ensures retval == first + FromSrc(patch, mergeKey, processed)
  {
    var items := trimmed;
    retval := first;
    assert patch[0..] == patch;
    for i := 0 to |items|
      invariant |items| == |patch|
      invariant forall j: nat :: j < |items| ==> WithoutPatch(items[j]) == WithoutPatch(patch[j])
      invariant retval + FromSrc(patch[i..], mergeKey, processed) == first + FromSrc(patch, mergeKey, processed)
    {
      SrcStep(retval, patch, mergeKey, processed, i);
      var item := WithoutPatch(items[i]);
      items := items[i := item];
      var key := KeyOf(item, mergeKey);
      if key == "" || key !in processed {
        retval := retval + [item];
      }
    }
  }

  /** StrategicMerge's callback returns what Merge says, and panics exactly when it says so. */
  method StrategicMerge(mergeKey: string, patch: seq<Value>, dstA: Value) returns (r: Result<Value, Panic>)
    ensures var src := Strategic(mergeKey, patch);
            r == if MergePanics(dstA, src) then Err(Panic) else Ok(Merge(dstA, src))
  {
    if !dstA.Arr? {
      return Ok(Merge(dstA, Arr(patch)));
    }
    ghost var src := Strategic(mergeKey, patch);
    var keyedSrc := IndexByKey(patch, mergeKey);
    var ok, retval, items, processed := MergeDst(dstA.items, src, mergeKey, patch, keyedSrc);
    if !ok {
      return Err(Panic);
    }
    forall j: nat | j < |patch| ensures WithoutPatch(items[j]) == WithoutPatch(patch[j]) {
      assert WithoutPatch(WithoutPatch(patch[j])) == WithoutPatch(patch[j]);
    }
    retval := AppendSrc(retval, patch, items, mergeKey, processed);
    r := Ok(Arr(retval));
  }

  lemma ProcessedStep(dst: seq<Value>, src: Value, i: nat)
    requires src.Strategic? && i < |dst|
    ensures Processed(dst[..i + 1], src) ==
            Processed(dst[..i], src) + if Partner(dst[i], src).Some? then {KeyOf(dst[i], src.mergeKey)} else {}
  {
    var more, less := Processed(dst[..i + 1], src), Processed(dst[..i], src);
    forall key | key in more
      ensures key in less || (Partner(dst[i], src).Some? && key == KeyOf(dst[i], src.mergeKey))
    {
      var k: nat :| k < i + 1 && Partner(dst[..i + 1][k], src).Some? && key == KeyOf(dst[..i + 1][k], src.mergeKey);
      if k < i {
        assert dst[..i][k] == dst[..i + 1][k];
      }
    }
    forall key | key in less ensures key in more {
      var k: nat :| k < i && Partner(dst[..i][k], src).Some? && key == KeyOf(dst[..i][k], src.mergeKey);
      assert dst[..i + 1][k] == dst[..i][k];
    }
    assert dst[..i + 1][i] == dst[i];
  }

  // ---------------------------------------------------------------------------------------
  // What the loops amount to
  // ---------------------------------------------------------------------------------------

  /** The non-empty keys of the items, in order. */
  function Keys(items: seq<Value>, keyName: string): seq<string> {
    if items == [] then []
    else (if KeyOf(items[0], keyName) == "" then [] else [KeyOf(items[0], keyName)]) + Keys(items[1..], keyName)
  }

  predicate Distinct(keys: seq<string>) {
    keys == [] || (keys[0] !in keys[1..] && Distinct(keys[1..]))
  }

  /** What becomes of one destination item: it stays, is replaced, dropped, or merged. */
  function Rewrite(item: Value, src: Value): seq<Value>
    requires src.Strategic?
  {
    var j := Partner(item, src);
    if j.None? then [item]
    else
      var srcM := src.patch[j.value];
      match KeyOf(srcM, PATCH_KEY)
      case "replace" => [WithoutPatch(srcM)]
      case "delete" => []
      case _ => [Merge(item, WithoutPatch(srcM))]
  }

  function RewriteAll(dst: seq<Value>, src: Value): seq<Value>
    requires src.Strategic?
  {
    if dst == [] then [] else Rewrite(dst[0], src) + RewriteAll(dst[1..], src)
  }

  /** The source items without a key of the destination, without their directives. */
  function NewItems(patch: seq<Value>, keyName: string, before: seq<string>): seq<Value> {
    if patch == [] then []
    else
      (if KeyOf(patch[0], keyName) in before then [] else [WithoutPatch(patch[0])])
      + NewItems(patch[1..], keyName, before)
  }

  lemma {:induction false} KeyInKeys(items: seq<Value>, keyName: string, key: string)
    requires key != ""
    ensures key in Keys(items, keyName) <==> exists i: nat :: i < |items| && KeyOf(items[i], keyName) == key
  {
    if items == [] {
    } else {
      KeyInKeys(items[1..], keyName, key);
      if key in Keys(items[1..], keyName) {
        var i: nat :| i < |items[1..]| && KeyOf(items[1..][i], keyName) == key;
        assert KeyOf(items[i + 1], keyName) == key;
      }
      if i: nat :| i < |items| && KeyOf(items[i], keyName) == key && i > 0 {
        assert items[1..][i - 1] == items[i];
      }
    }
  }

  lemma {:induction false} DistinctConcat(a: seq<string>, b: seq<string>)
    requires Distinct(a) && Distinct(b) && forall key :: key in a ==> key !in b
    ensures Distinct(a + b)
  {
    if a == [] {
      assert a + b == b;
    } else {
      assert (a + b)[1..] == a[1..] + b;
      DistinctConcat(a[1..], b);
    }
  }

  lemma DistinctTail(items: seq<Value>, keyName: string)
    requires items != [] && Distinct(Keys(items, keyName))
    ensures Distinct(Keys(items[1..], keyName))
    ensures KeyOf(items[0], keyName) != "" ==> KeyOf(items[0], keyName) !in Keys(items[1..], keyName)
  {
    var key, rest := KeyOf(items[0], keyName), Keys(items[1..], keyName);
    if key == "" {
      assert Keys(items, keyName) == rest;
    } else {
      assert ([key] + rest)[1..] == rest;
    }
  }

  /** With distinct destination keys, no directive is ever used up by an earlier item. */
  lemma {:induction false} FirstLoopRewrites(dst: seq<Value>, src: Value, seen: set<string>)
    requires src.Strategic? && Distinct(Keys(dst, src.mergeKey))
    requires forall key :: key in seen ==> key !in Keys(dst, src.mergeKey)
    ensures FromDst(dst, src, seen) == RewriteAll(dst, src)
    decreases |dst|
  {
    if dst == [] {
    } else {
      var key := KeyOf(dst[0], src.mergeKey);
      DistinctTail(dst, src.mergeKey);
      DstStep(dst, src, 0, seen);
      assert dst[0..] == dst;
      if Partner(dst[0], src).Some? {
        assert key in Keys(dst, src.mergeKey);
        FirstLoopRewrites(dst[1..], src, seen + {key});
      } else {
        FirstLoopRewrites(dst[1..], src, seen);
      }
    }
  }

  lemma {:induction false} LastWithNone(patch: seq<Value>, keyName: string, key: string, i: nat)
    requires i < |patch| && KeyOf(patch[i], keyName) == key
    ensures LastWith(patch, keyName, key).Some?
  {
  }

  /** A key of the source is processed exactly if the destination has it. */
  lemma ProcessedKeys(dst: seq<Value>, src: Value, i: nat)
    requires src.Strategic? && i < |src.patch| && KeyOf(src.patch[i], src.mergeKey) != ""
    ensures var key := KeyOf(src.patch[i], src.mergeKey);
            key in Processed(dst, src) <==> key in Keys(dst, src.mergeKey)
  {
    var key := KeyOf(src.patch[i], src.mergeKey);
    KeyInKeys(dst, src.mergeKey, key);
    LastWithNone(src.patch, src.mergeKey, key, i);
    if key in Keys(dst, src.mergeKey) {
      var k: nat :| k < |dst| && KeyOf(dst[k], src.mergeKey) == key;
      assert Partner(dst[k], src).Some?;
    }
  }

  lemma {:induction false} SecondLoopAppends(patch: seq<Value>, keyName: string, processed: set<string>, before: seq<string>)
    requires keyName != PATCH_KEY && "" !in before
    requires forall i: nat | i < |patch| && KeyOf(patch[i], keyName) != "" ::
               KeyOf(patch[i], keyName) in processed <==> KeyOf(patch[i], keyName) in before
    ensures FromSrc(patch, keyName, processed) == NewItems(patch, keyName, before)
  {
    if patch == [] {
    } else {
      assert forall i: nat | i < |patch[1..]| :: patch[1..][i] == patch[i + 1];
      SecondLoopAppends(patch[1..], keyName, processed, before);
      assert KeyOf(WithoutPatch(patch[0]), keyName) == KeyOf(patch[0], keyName);
    }
  }

  lemma {:induction false} KeysAreNonEmpty(items: seq<Value>, keyName: string)
    ensures "" !in Keys(items, keyName)
  {
    if items == [] {
    } else {
      KeysAreNonEmpty(items[1..], keyName);
    }
  }

  /**
   If the keys of the destination are distinct, StrategicMerge rewrites its items one by one, in
   order, and appends the source items whose key the destination does not have, in order; so an
   unmatched item is appended whatever its directive says.
   */
  lemma KeyedMergeIs(dst: seq<Value>, src: Value)
    requires src.Strategic? && src.mergeKey != PATCH_KEY
    requires Distinct(Keys(dst, src.mergeKey))
    ensures MergeKeyed(dst, src) == RewriteAll(dst, src) + NewItems(src.patch, src.mergeKey, Keys(dst, src.mergeKey))
  {
    FirstLoopRewrites(dst, src, {});
    forall i: nat | i < |src.patch| && KeyOf(src.patch[i], src.mergeKey) != ""
      ensures var key := KeyOf(src.patch[i], src.mergeKey);
              key in Processed(dst, src) <==> key in Keys(dst, src.mergeKey)
    {
      ProcessedKeys(dst, src, i);
    }
    KeysAreNonEmpty(dst, src.mergeKey);
    SecondLoopAppends(src.patch, src.mergeKey, Processed(dst, src), Keys(dst, src.mergeKey));
  }

  /** The source asks to delete the item with this key. */
  predicate Deletes(src: Value, key: string)
    requires src.Strategic?
  {
    var j := LastWith(src.patch, src.mergeKey, key);
    j.Some? && KeyOf(src.patch[j.value], PATCH_KEY) == "delete"
  }

  function Kept(keys: seq<string>, src: Value): seq<string>
    requires src.Strategic?
  {
    if keys == [] then [] else (if Deletes(src, keys[0]) then [] else [keys[0]]) + Kept(keys[1..], src)
  }

  function Unknown(keys: seq<string>, before: seq<string>): seq<string> {
    if keys == [] then [] else (if keys[0] in before then [] else [keys[0]]) + Unknown(keys[1..], before)
  }

  lemma {:induction false} KeysConcat(a: seq<Value>, b: seq<Value>, keyName: string)
    ensures Keys(a + b, keyName) == Keys(a, keyName) + Keys(b, keyName)
  {
    if a == [] {
      assert a + b == b;
    } else {
      assert (a + b)[1..] == a[1..] + b;
      KeysConcat(a[1..], b, keyName);
    }
  }

  /** A rewritten item keeps its key. */
  lemma RewriteKeepsKey(item: Value, src: Value)
    requires src.Strategic? && src.mergeKey != PATCH_KEY
    ensures Keys(Rewrite(item, src), src.mergeKey) == Kept(Keys([item], src.mergeKey), src)
  {
    var key, j := KeyOf(item, src.mergeKey), Partner(item, src);
    assert [item][1..] == [];
    assert Keys([item], src.mergeKey) == if key == "" then [] else [key];
    if j.Some? {
      var srcM := src.patch[j.value];
      MergeWithoutPatch(item, srcM);
      assert srcM.fields[src.mergeKey] == item.fields[src.mergeKey] == Str(key);
      assert KeyOf(WithoutPatch(srcM), src.mergeKey) == key;
      assert KeyOf(Merge(item, WithoutPatch(srcM)), src.mergeKey) == key;
      if |Rewrite(item, src)| == 1 {
        assert Rewrite(item, src)[1..] == [];
      }
      assert [key][1..] == [];
    }
  }

  lemma {:induction false} RewriteKeys(dst: seq<Value>, src: Value)
    requires src.Strategic? && src.mergeKey != PATCH_KEY
    ensures Keys(RewriteAll(dst, src), src.mergeKey) == Kept(Keys(dst, src.mergeKey), src)
  {
    if dst == [] {
    } else {
      KeysConcat(Rewrite(dst[0], src), RewriteAll(dst[1..], src), src.mergeKey);
      RewriteKeepsKey(dst[0], src);
      RewriteKeys(dst[1..], src);
      assert [dst[0]] + dst[1..] == dst;
      KeysConcat([dst[0]], dst[1..], src.mergeKey);
      KeptConcat(Keys([dst[0]], src.mergeKey), Keys(dst[1..], src.mergeKey), src);
    }
  }

  lemma {:induction false} KeptConcat(a: seq<string>, b: seq<string>, src: Value)
    requires src.Strategic?
    ensures Kept(a + b, src) == Kept(a, src) + Kept(b, src)
  {
    if a == [] {
      assert a + b == b;
    } else {
      assert (a + b)[1..] == a[1..] + b;
      KeptConcat(a[1..], b, src);
    }
  }

  lemma {:induction false} NewKeys(patch: seq<Value>, keyName: string, before: seq<string>)
    requires keyName != PATCH_KEY && "" !in before
    ensures Keys(NewItems(patch, keyName, before), keyName) == Unknown(Keys(patch, keyName), before)
  {
    if patch == [] {
    } else {
      NewKeys(patch[1..], keyName, before);
      var key, item, rest := KeyOf(patch[0], keyName), WithoutPatch(patch[0]), NewItems(patch[1..], keyName, before);
      assert KeyOf(item, keyName) == key;
      if key in before {
        assert [] + rest == rest;
      } else {
        assert ([item] + rest)[1..] == rest;
      }
      if key != "" {
        assert ([key] + Keys(patch[1..], keyName))[1..] == Keys(patch[1..], keyName);
      } else {
        assert [] + Keys(patch[1..], keyName) == Keys(patch[1..], keyName);
      }
    }
  }

  lemma {:induction false} KeptMeans(keys: seq<string>, src: Value)
    requires src.Strategic?
    ensures forall key :: key in Kept(keys, src) <==> key in keys && !Deletes(src, key)
    ensures Distinct(keys) ==> Distinct(Kept(keys, src))
  {
    if keys == [] {
    } else {
      KeptMeans(keys[1..], src);
      assert [keys[0]] + keys[1..] == keys;
      assert ([keys[0]] + Kept(keys[1..], src))[1..] == Kept(keys[1..], src);
      assert [] + Kept(keys[1..], src) == Kept(keys[1..], src);
    }
  }

  lemma {:induction false} UnknownMeans(keys: seq<string>, before: seq<string>)
    ensures forall key :: key in Unknown(keys, before) <==> key in keys && key !in before
    ensures Distinct(keys) ==> Distinct(Unknown(keys, before))
  {
    if keys == [] {
    } else {
      UnknownMeans(keys[1..], before);
      assert [keys[0]] + keys[1..] == keys;
      assert ([keys[0]] + Unknown(keys[1..], before))[1..] == Unknown(keys[1..], before);
      assert [] + Unknown(keys[1..], before) == Unknown(keys[1..], before);
    }
  }

  /**
   With distinct keys on both sides, the keys of the result are distinct again: in order, those of
   the destination that the source does not delete, and then those only the source has.
   */
  lemma ResultKeys(dst: seq<Value>, src: Value)
    requires src.Strategic? && src.mergeKey != PATCH_KEY
    requires Distinct(Keys(dst, src.mergeKey)) && Distinct(Keys(src.patch, src.mergeKey))
    ensures var before, after := Keys(dst, src.mergeKey), Keys(src.patch, src.mergeKey);
            var keys := Keys(MergeKeyed(dst, src), src.mergeKey);
            && keys == Kept(before, src) + Unknown(after, before)
            && Distinct(keys)
            && forall key :: key in keys <==> (key in before && !Deletes(src, key)) || (key in after && key !in before)
  {
    var before, after := Keys(dst, src.mergeKey), Keys(src.patch, src.mergeKey);
    KeyedMergeIs(dst, src);
    KeysConcat(RewriteAll(dst, src), NewItems(src.patch, src.mergeKey, before), src.mergeKey);
    RewriteKeys(dst, src);
    KeysAreNonEmpty(dst, src.mergeKey);
    NewKeys(src.patch, src.mergeKey, before);
    KeptMeans(before, src);
    UnknownMeans(after, before);
    DistinctConcat(Kept(before, src), Unknown(after, before));
  }

  predicate HasPatch(v: Value) {
    v.Obj? && PATCH_KEY in v.fields
  }

  lemma {:induction false} FromDstHasNoPatch(dst: seq<Value>, src: Value, seen: set<string>)
    requires src.Strategic? && forall item :: item in dst ==> !HasPatch(item)
    ensures forall item :: item in FromDst(dst, src, seen) ==> !HasPatch(item)
    decreases |dst|
  {
    if dst == [] {
    } else {
      FromDstHasNoPatch(dst[1..], src, seen);
      FromDstHasNoPatch(dst[1..], src, seen + {KeyOf(dst[0], src.mergeKey)});
      var item, j := dst[0], Partner(dst[0], src);
      if j.Some? {
        assert !HasPatch(WithoutPatch(src.patch[j.value]));
        assert item in dst && !HasPatch(Obj(MergeFields(item.fields, src.patch[j.value], {PATCH_KEY})));
      }
    }
  }

  lemma {:induction false} FromSrcHasNoPatch(patch: seq<Value>, keyName: string, processed: set<string>)
    ensures forall item :: item in FromSrc(patch, keyName, processed) ==> !HasPatch(item)
  {
    if patch == [] {
    } else {
      FromSrcHasNoPatch(patch[1..], keyName, processed);
    }
  }

  /** No directive of the source gets into what an array is merged to. */
  lemma DirectivesVanish(dst: seq<Value>, src: Value)
    requires src.Strategic? && forall item :: item in dst ==> !HasPatch(item)
    ensures forall item :: item in MergeKeyed(dst, src) ==> !HasPatch(item)
  {
    FromDstHasNoPatch(dst, src, {});
    FromSrcHasNoPatch(src.patch, src.mergeKey, Processed(dst, src));
  }

  /**
   For any destination, an array without directives or something else: the items of the result have no
   directives if and only if the destination is an array or the source has none.
   */
  lemma DirectivesVanishIff(dst: Value, src: Value)
    requires src.Strategic? && (dst.Arr? ==> forall item :: item in dst.items ==> !HasPatch(item))
    ensures Merge(dst, src).Arr?
    ensures (forall item :: item in Merge(dst, src).items ==> !HasPatch(item))
            <==> dst.Arr? || forall item :: item in src.patch ==> !HasPatch(item)
  {
    if dst.Arr? {
      DirectivesVanish(dst.items, src);
    }
  }

  /** A patch for a key that the destination does not have: the call returns the directive as data. */
  lemma DirectiveStays()
    ensures var item := Obj(map["name" := Str("x"), PATCH_KEY := Str("delete")]);
            Merged([Obj(map[]), Obj(map["list" := Strategic("name", [item])])])
            == Ok(Obj(map["list" := Arr([item])]))
  {
    var item := Obj(map["name" := Str("x"), PATCH_KEY := Str("delete")]);
    var dst, src := Obj(map[]), Obj(map["list" := Strategic("name", [item])]);
    assert [dst, src][1..] == [src] && MultiMerge([src]) == src;
    assert MergeFields(dst.fields, src, {}) == src.fields;
    assert !FieldsPanic(dst.fields, src, {}) && !MergePanics(dst, src) && !MultiPanics([src]);
    assert MultiMerge([dst, src]) == src && !MultiPanics([dst, src]);
    assert Resolve(item, false).fields == item.fields;
    assert !ResolvePanics(item) && !ResolvePanics(src.fields["list"]);
    assert Resolve(src.fields["list"], false).items == [item];
    assert Resolve(src, false).fields == map["list" := Arr([item])];
  }
}
