/**
 The values that jdig merges, and merging and resolving as functions on them.

 A mergeHandler is one of the three that the package offers: Keep, Replace and
 StrategicMerge.  Nil maps and slices count as empty.  Where a Go call would panic, the functions
 below still have a value and a predicate next to them says that the call panics; Merged puts
 the two together.
 */
module Json {
  import opened Wrappers
  import opened Sequences

  datatype Value =
    | Null
    | Scalar(id: int)
    | Str(text: string)
    | Obj(fields: map<string, Value>)
    | Arr(items: seq<Value>)
    | Discard
    | Keep
    | Replace(with: Value)
    | Strategic(mergeKey: string, patch: seq<Value>)

  /** A mergeHandler; the discard marker is not one. */
  predicate IsHandler(v: Value) {
    v.Keep? || v.Replace? || v.Strategic?
  }

  predicate IsContainer(v: Value) {
    v.Obj? || v.Arr?
  }

  predicate SameKind(a: Value, b: Value) {
    (a.Obj? && b.Obj?) || (a.Arr? && b.Arr?)
  }

  // ---------------------------------------------------------------------------------------
  // Merging
  // ---------------------------------------------------------------------------------------

  const PATCH_KEY := "$patch"

  function Merge(dst: Value, src: Value): Value
    decreases src, 2
  {
    match src
    case Obj(_) => if dst.Obj? then Obj(MergeFields(dst.fields, src, {})) else src
    case Arr(b) =>
      if !dst.Arr? then src
      else
        var a := dst.items;
        var l := Min(|a|, |b|);
        Arr(seq(l, i requires 0 <= i < l => Merge(a[i], b[i])) + a[l..] + b[l..])
    case Keep => dst
    case Replace(w) => w
    case Strategic(_, items) => if dst.Arr? then Arr(MergeKeyed(dst.items, src)) else Arr(items)
    case _ => src
  }

  /** Merges the fields of the object src other than those in drop into dst. */
  function MergeFields(dst: map<string, Value>, src: Value, drop: set<string>): map<string, Value>
    requires src.Obj?
    decreases src, 1
  {
    map k | k in dst.Keys + (src.fields.Keys - drop) ::
      if k !in src.fields || k in drop then dst[k]
      else if k in dst then Merge(dst[k], src.fields[k])
      else src.fields[k]
  }

  /** The string under keyName, or "" if v is no object with such a string. */
  function KeyOf(v: Value, keyName: string): string {
    if v.Obj? && keyName in v.fields && v.fields[keyName].Str? then v.fields[keyName].text else ""
  }

  function WithoutPatch(v: Value): Value {
    if v.Obj? then Obj(v.fields - {PATCH_KEY}) else v
  }

  /** The last item of patch whose key is key. */
  function LastWith(patch: seq<Value>, keyName: string, key: string): (j: Option<nat>)
    ensures j.Some? ==> j.value < |patch| && KeyOf(patch[j.value], keyName) == key
    ensures j.Some? ==> forall i: nat | j.value < i < |patch| :: KeyOf(patch[i], keyName) != key
    ensures j.None? ==> forall i: nat | i < |patch| :: KeyOf(patch[i], keyName) != key
  {
    if patch == [] then None
    else
      var n: nat := |patch| - 1;
      if KeyOf(patch[n], keyName) == key then Some(n) else LastWith(patch[..n], keyName, key)
  }

  /** The source item that a destination item meets, if any. */
  function Partner(item: Value, src: Value): (j: Option<nat>)
    requires src.Strategic?
    ensures j.Some? ==> j.value < |src.patch| && src.patch[j.value].Obj? && item.Obj?
  {
    var key := KeyOf(item, src.mergeKey);
    if key == "" then None else LastWith(src.patch, src.mergeKey, key)
  }

  /** The directive for a destination item; the first item with a key removes it. */
  function Directive(item: Value, src: Value, seen: set<string>): string
    requires src.Strategic? && Partner(item, src).Some?
  {
    if KeyOf(item, src.mergeKey) in seen then "" else KeyOf(src.patch[Partner(item, src).value], PATCH_KEY)
  }

  /** The first loop of StrategicMerge: the destination items with their partners. */
  function FromDst(dst: seq<Value>, src: Value, seen: set<string>): seq<Value>
    requires src.Strategic?
    decreases src, 0, |dst|
  {
    if dst == [] then []
    else
      var item, j := dst[0], Partner(dst[0], src);
      if j.None? then [item] + FromDst(dst[1..], src, seen)
      else
        var directive := Directive(item, src, seen);
        var rest := FromDst(dst[1..], src, seen + {KeyOf(item, src.mergeKey)});
        if directive == "replace" then [WithoutPatch(src.patch[j.value])] + rest
        else if directive == "delete" then rest
        else [Obj(MergeFields(item.fields, src.patch[j.value], {PATCH_KEY}))] + rest
  }

  /** The keys of the destination items that met a partner. */
  function Processed(dst: seq<Value>, src: Value): set<string>
    requires src.Strategic?
  {
    set i: nat | i < |dst| && Partner(dst[i], src).Some? :: KeyOf(dst[i], src.mergeKey)
  }

  /** The second loop of StrategicMerge: the source items that met no destination item. */
  function FromSrc(patch: seq<Value>, keyName: string, processed: set<string>): seq<Value> {
    if patch == [] then []
    else
      var item := WithoutPatch(patch[0]);
      var key := KeyOf(item, keyName);
      (if key == "" || key !in processed then [item] else []) + FromSrc(patch[1..], keyName, processed)
  }

  function MergeKeyed(dst: seq<Value>, src: Value): seq<Value>
    requires src.Strategic?
    decreases src, 1
  {
    FromDst(dst, src, {}) + FromSrc(src.patch, src.mergeKey, Processed(dst, src))
  }

  /** The call merge(dst, src) panics. */
  predicate MergePanics(dst: Value, src: Value)
    decreases src, 1
  {
    match src
    case Obj(_) => dst.Obj? && FieldsPanic(dst.fields, src, {})
    case Arr(b) => dst.Arr? && exists i: nat :: i < Min(|dst.items|, |b|) && MergePanics(dst.items[i], b[i])
    case Replace(w) => dst.Null? && IsHandler(w)
    case Strategic(_, _) => dst.Arr? && KeyedPanics(dst.items, src, {})
    case _ => false
  }

  predicate FieldsPanic(dst: map<string, Value>, src: Value, drop: set<string>)
    requires src.Obj?
    decreases src, 0
  {
    exists k :: k in dst && k in src.fields && k !in drop && MergePanics(dst[k], src.fields[k])
  }

  predicate KeyedPanics(dst: seq<Value>, src: Value, seen: set<string>)
    requires src.Strategic?
    decreases src, 0, |dst|
  {
    dst != [] &&
    if Partner(dst[0], src).None? then KeyedPanics(dst[1..], src, seen)
    else
      var directive := Directive(dst[0], src, seen);
      || directive !in {"", "merge", "replace", "delete"}
      || (directive in {"", "merge"} &&
            FieldsPanic(dst[0].fields, src.patch[Partner(dst[0], src).value], {PATCH_KEY}))
      || KeyedPanics(dst[1..], src, seen + {KeyOf(dst[0], src.mergeKey)})
  }

  // ---------------------------------------------------------------------------------------
  // Resolving the remaining handlers
  // ---------------------------------------------------------------------------------------

  /** The element of an array: the discard marker leaves a null behind. */
  function Element(v: Value): Value {
    if v.Discard? then Null else v
  }

  function Resolve(v: Value, discardOnly: bool): Value {
    match v
    case Obj(m) =>
      Obj(map k | k in m && !Resolve(m[k], discardOnly).Discard? :: Resolve(m[k], discardOnly))
    case Arr(a) => Arr(seq(|a|, i requires 0 <= i < |a| => Element(Resolve(a[i], discardOnly))))
    case Keep => if discardOnly then v else Null
    case Replace(w) => if discardOnly then v else Resolve(w, discardOnly)
    case Strategic(_, a) =>
      if discardOnly then v
      else Arr(seq(|a|, i requires 0 <= i < |a| => Element(Resolve(a[i], discardOnly))))
    case _ => v
  }

  /** The call resolveRemainingHandler(v, false) panics. */
  predicate ResolvePanics(v: Value) {
    match v
    case Obj(m) => exists k :: k in m && ResolvePanics(m[k])
    case Arr(a) => exists i: nat :: i < |a| && ResolvePanics(a[i])
    case Replace(w) => IsHandler(w) || ResolvePanics(w)
    case Strategic(_, a) => exists i: nat :: i < |a| && ResolvePanics(a[i])
    case _ => false
  }

  function ResolveTop(v: Value, discardOnly: bool): Value {
    Element(Resolve(v, discardOnly))
  }

  // ---------------------------------------------------------------------------------------
  // Merging a list
  // ---------------------------------------------------------------------------------------

  function MultiMerge(objs: seq<Value>): Value {
    if objs == [] then Null
    else if |objs| == 1 then objs[0]
    else Merge(objs[0], MultiMerge(objs[1..]))
  }

  predicate MultiPanics(objs: seq<Value>) {
    |objs| > 1 && (MultiPanics(objs[1..]) || MergePanics(objs[0], MultiMerge(objs[1..])))
  }

  datatype Panic = Panic

  /** jdig.Merge. */
  function Merged(objs: seq<Value>): Result<Value, Panic> {
    if MultiPanics(objs) || ResolvePanics(MultiMerge(objs)) then Err(Panic)
    else Ok(ResolveTop(MultiMerge(objs), false))
  }

  // ---------------------------------------------------------------------------------------
  // Handler-free values
  // ---------------------------------------------------------------------------------------

  /** No mergeHandler at any depth. */
  predicate Plain(v: Value) {
    match v
    case Obj(m) => forall k :: k in m ==> Plain(m[k])
    case Arr(a) => forall i: nat :: i < |a| ==> Plain(a[i])
    case _ => !IsHandler(v)
  }

  /** Neither a mergeHandler nor a discard marker at any depth. */
  predicate Clean(v: Value) {
    match v
    case Obj(m) => forall k :: k in m ==> Clean(m[k])
    case Arr(a) => forall i: nat :: i < |a| ==> Clean(a[i])
    case _ => !IsHandler(v) && !v.Discard?
  }
}
