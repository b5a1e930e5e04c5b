/** ObjectInfo and its four kinds, the name-sorted field map of a composite
    object, and getObjectInfo's choice of kind. */
module ObjectInfos {
  import opened Wrappers
  import opened SortedMap
  import opened ObjectModel
  import opened Utils
  import opened Fields
  import opened RepresentationOptions

  /** The anonymous null ObjectInfo, ArrayObjectInfo, PrimitiveObjectInfo and
      NonPrimitiveObjectInfo. A value-type object is kept as its runtime class
      and toString text. */
  datatype ObjectInfo =
    | NullInfo(options: Options)
    | ArrayInfo(array: ObjId, options: Options)
    | PrimitiveInfo(leafClass: LeafClass, text: string, options: Options)
    | CompositeInfo(obj: ObjId, options: Options, fields: Entries<FieldInfo>)

  /** getObject */
  function InfoObject(info: ObjectInfo): Value
  {
    match info
    case NullInfo(_) => Null
    case ArrayInfo(a, _) => Ref(a)
    case PrimitiveInfo(c, text, _) => Leaf(c, text)
    case CompositeInfo(id, _, _) => Ref(id)
  }

  ghost predicate EntryOk(ct: ClassTable, h: Store, m: Entries<FieldInfo>, i: nat)
    requires i < |m|
  {
    FieldInfoOk(ct, h, m[i].1)
  }

  /** Every entry of a field map is a well-formed FieldInfo. */
  ghost predicate EntriesOk(ct: ClassTable, h: Store, m: Entries<FieldInfo>)
  {
    forall i: nat {:trigger EntryOk(ct, h, m, i)} | i < |m| :: EntryOk(ct, h, m, i)
  }

  lemma EntriesPrefixOk(ct: ClassTable, h: Store, m: Entries<FieldInfo>, n: nat)
    requires EntriesOk(ct, h, m) && n <= |m|
    ensures EntriesOk(ct, h, m[..n])
  {
    forall i: nat | i < n ensures EntryOk(ct, h, m[..n], i) {
      assert EntryOk(ct, h, m, i);
      assert m[..n][i] == m[i];
    }
  }

  /** The last declaration named n among ds (a class declares a name once, so
      this is its declaration of n). */
  function LastDecl(ds: seq<FieldDecl>, n: string): (r: Option<FieldDecl>)
    ensures r.Some? ==> r.value in ds && r.value.name == n
    ensures r.None? <==> forall i | 0 <= i < |ds| :: ds[i].name != n
  {
    if ds == [] then None
    else if ds[|ds| - 1].name == n then Some(ds[|ds| - 1])
    else LastDecl(ds[..|ds| - 1], n)
  }

  /** Class c declares a field named n. */
  predicate Declares(ct: ClassTable, c: ClassId, n: string)
    requires c in ct
  {
    LastDecl(ct[c].fields, n).Some?
  }

  /** The position in `classes` of the last class that declares a field named n. */
  function DeclaringIndex(ct: ClassTable, classes: seq<ClassId>, n: string): (r: Option<nat>)
    requires forall k | 0 <= k < |classes| :: classes[k] in ct
    ensures r.Some? ==>
      && r.value < |classes|
      && Declares(ct, classes[r.value], n)
      && forall k | r.value < k < |classes| :: !Declares(ct, classes[k], n)
    ensures r.None? ==> forall k | 0 <= k < |classes| :: !Declares(ct, classes[k], n)
  {
    if classes == [] then None
    else if Declares(ct, classes[|classes| - 1], n) then Some(|classes| - 1)
    else
      var prefix := classes[..|classes| - 1];
      assert forall k | 0 <= k < |prefix| :: prefix[k] == classes[k];
      DeclaringIndex(ct, prefix, n)
  }

  /** The FieldInfo getFieldInfo builds for field f of class c read from
      instance id; it always succeeds since the object is given. */
  function MemberInfo(ct: ClassTable, h: Store, f: FieldDecl, c: ClassId, id: ObjId, o: Options): FieldInfo
  {
    GetFieldInfo(ct, h, f, c, Some(id), o).value
  }

  /** The inner loop of the NonPrimitiveObjectInfo constructor over the first n
      declared fields of class c: each FieldInfo is put under its name,
      replacing an earlier entry of that name. */
  function PutDecls(ct: ClassTable, h: Store, m: Entries<FieldInfo>, c: ClassId, n: nat, id: ObjId,
                    o: Options): (r: Entries<FieldInfo>)
    requires Sorted(m) && c in ct && n <= |ct[c].fields|
    ensures Sorted(r)
    decreases n
  {
    if n == 0 then m
    else
      var f := ct[c].fields[n - 1];
      Put(PutDecls(ct, h, m, c, n - 1, id, o), f.name, MemberInfo(ct, h, f, c, id, o))
  }

  lemma PutDeclsStep(ct: ClassTable, h: Store, m: Entries<FieldInfo>, c: ClassId, n: nat, id: ObjId, o: Options)
    requires Sorted(m) && c in ct && n < |ct[c].fields|
    ensures Sorted(PutDecls(ct, h, m, c, n, id, o))
    ensures PutDecls(ct, h, m, c, n + 1, id, o)
              == Put(PutDecls(ct, h, m, c, n, id, o), ct[c].fields[n].name,
                     MemberInfo(ct, h, ct[c].fields[n], c, id, o))
  {
  }

  /** The outer loop over the participating classes, root class first. */
  function PutClasses(ct: ClassTable, h: Store, m: Entries<FieldInfo>, classes: seq<ClassId>, id: ObjId,
                      o: Options): (r: Entries<FieldInfo>)
    requires Sorted(m) && forall k | 0 <= k < |classes| :: classes[k] in ct
    ensures Sorted(r)
    decreases |classes|
  {
    if classes == [] then m
    else
      var c := classes[|classes| - 1];
      PutDecls(ct, h, PutClasses(ct, h, m, classes[..|classes| - 1], id, o), c, |ct[c].fields|, id, o)
  }

  /** The fields map of a NonPrimitiveObjectInfo for instance id: every field
      declared along its superclass chain, read at one indent level deeper. */
  function FieldMapOf(ct: ClassTable, h: Store, id: ObjId, o: Options): (r: Entries<FieldInfo>)
    requires TableOk(ct) && id in h && h[id].Instance? && h[id].cls in ct
    ensures Sorted(r)
  {
    PutClasses(ct, h, [], Ancestry(ct, h[id].cls), id, CloneAndAddIndent(o))
  }

  lemma {:induction false} PutDeclsOk(ct: ClassTable, h: Store, m: Entries<FieldInfo>, c: ClassId, n: nat,
                                      id: ObjId, o: Options)
    requires Sorted(m) && c in ct && n <= |ct[c].fields|
    requires Wf(ct, h) && id in h && EntriesOk(ct, h, m)
    ensures EntriesOk(ct, h, PutDecls(ct, h, m, c, n, id, o))
    decreases n
  {
    if n > 0 {
      var prev := PutDecls(ct, h, m, c, n - 1, id, o);
      var f := ct[c].fields[n - 1];
      var fi := MemberInfo(ct, h, f, c, id, o);
      PutDeclsOk(ct, h, m, c, n - 1, id, o);
      GetFieldInfoOk(ct, h, c, n - 1, id, o);
      PutOk(ct, h, prev, f.name, fi);
      PutDeclsStep(ct, h, m, c, n - 1, id, o);
    }
  }

  lemma PutOk(ct: ClassTable, h: Store, m: Entries<FieldInfo>, k: string, fi: FieldInfo)
    requires Sorted(m) && EntriesOk(ct, h, m) && FieldInfoOk(ct, h, fi)
    ensures EntriesOk(ct, h, Put(m, k, fi))
  {
    var r := Put(m, k, fi);
    PutEntries(m, k, fi);
    forall i: nat | i < |r| ensures EntryOk(ct, h, r, i) {
      if r[i] != (k, fi) {
        var j :| 0 <= j < |m| && m[j] == r[i];
        assert EntryOk(ct, h, m, j);
      }
    }
  }

  lemma {:induction false} PutClassesOk(ct: ClassTable, h: Store, m: Entries<FieldInfo>, classes: seq<ClassId>,
                                        id: ObjId, o: Options)
    requires Sorted(m) && forall k | 0 <= k < |classes| :: classes[k] in ct
    requires Wf(ct, h) && id in h && EntriesOk(ct, h, m)
    ensures EntriesOk(ct, h, PutClasses(ct, h, m, classes, id, o))
    decreases |classes|
  {
    if classes != [] {
      var c := classes[|classes| - 1];
      PutClassesOk(ct, h, m, classes[..|classes| - 1], id, o);
      PutDeclsOk(ct, h, PutClasses(ct, h, m, classes[..|classes| - 1], id, o), c, |ct[c].fields|, id, o);
    }
  }

  /** Classes that declare no fields leave the map as it was. */
  lemma {:induction false} PutClassesNone(ct: ClassTable, h: Store, m: Entries<FieldInfo>, classes: seq<ClassId>,
                                          id: ObjId, o: Options)
    requires Sorted(m) && forall k | 0 <= k < |classes| :: classes[k] in ct
    requires forall k | 0 <= k < |classes| :: ct[classes[k]].fields == []
    ensures PutClasses(ct, h, m, classes, id, o) == m
    decreases |classes|
  {
    if classes != [] {
      var prefix := classes[..|classes| - 1];
      assert forall k | 0 <= k < |prefix| :: prefix[k] == classes[k];
      PutClassesNone(ct, h, m, prefix, id, o);
    }
  }

  /** Every FieldInfo of the map of a well-formed heap is well-formed. */
  lemma FieldMapOk(ct: ClassTable, h: Store, id: ObjId, o: Options)
    requires Wf(ct, h) && id in h && h[id].Instance? && h[id].cls in ct
    ensures EntriesOk(ct, h, FieldMapOf(ct, h, id, o))
  {
    PutClassesOk(ct, h, [], Ancestry(ct, h[id].cls), id, CloneAndAddIndent(o));
  }

  /** The FieldInfo the map keeps for name n, if some class of `classes`
      declares n: the one built from the last declaring class. */
  function Winner(ct: ClassTable, h: Store, classes: seq<ClassId>, n: string, id: ObjId, o: Options): Option<FieldInfo>
    requires forall k | 0 <= k < |classes| :: classes[k] in ct
  {
    match DeclaringIndex(ct, classes, n)
    case None => None
    case Some(k) =>
      var c := classes[k];
      Some(MemberInfo(ct, h, LastDecl(ct[c].fields, n).value, c, id, o))
  }

  /** The last declaration among the first n is the n-th one if it has the
      name, and otherwise the last among the first n - 1. */
  lemma LastDeclSnoc(ds: seq<FieldDecl>, n: nat, k: string)
    requires 0 < n <= |ds|
    ensures LastDecl(ds[..n], k) == if ds[n - 1].name == k then Some(ds[n - 1]) else LastDecl(ds[..n - 1], k)
  {
    assert ds[..n][..n - 1] == ds[..n - 1];
    assert ds[..n][n - 1] == ds[n - 1];
  }

  lemma {:induction false} PutDeclsGet(ct: ClassTable, h: Store, m: Entries<FieldInfo>, c: ClassId, n: nat,
                                       id: ObjId, o: Options, k: string)
    requires Sorted(m) && c in ct && n <= |ct[c].fields|
    ensures Get(PutDecls(ct, h, m, c, n, id, o), k) ==
      match LastDecl(ct[c].fields[..n], k)
      case None => Get(m, k)
      case Some(f) => Some(MemberInfo(ct, h, f, c, id, o))
    decreases n
  {
    if n > 0 {
      PutDeclsGet(ct, h, m, c, n - 1, id, o, k);
      LastDeclSnoc(ct[c].fields, n, k);
      PutDeclsGetStep(ct, h, m, c, n - 1, id, o, k);
    }
  }

  /** Looking up a name after one more declaration has been put. */
  lemma PutDeclsGetStep(ct: ClassTable, h: Store, m: Entries<FieldInfo>, c: ClassId, n: nat,
                        id: ObjId, o: Options, k: string)
    requires Sorted(m) && c in ct && n < |ct[c].fields|
    ensures Get(PutDecls(ct, h, m, c, n + 1, id, o), k) ==
      if ct[c].fields[n].name == k then Some(MemberInfo(ct, h, ct[c].fields[n], c, id, o))
      else Get(PutDecls(ct, h, m, c, n, id, o), k)
  {
    PutDeclsStep(ct, h, m, c, n, id, o);
    PutGet(PutDecls(ct, h, m, c, n, id, o), ct[c].fields[n].name, MemberInfo(ct, h, ct[c].fields[n], c, id, o), k);
  }

  lemma {:induction false} PutClassesGet(ct: ClassTable, h: Store, m: Entries<FieldInfo>, classes: seq<ClassId>,
                                         id: ObjId, o: Options, k: string)
    requires Sorted(m) && forall j | 0 <= j < |classes| :: classes[j] in ct
    ensures Get(PutClasses(ct, h, m, classes, id, o), k) ==
      match Winner(ct, h, classes, k, id, o)
      case None => Get(m, k)
      case Some(fi) => Some(fi)
    decreases |classes|
  {
    if classes != [] {
      var c := classes[|classes| - 1];
      var prefix := classes[..|classes| - 1];
      var inner := PutClasses(ct, h, m, prefix, id, o);
      PutClassesGet(ct, h, m, prefix, id, o, k);
      PutDeclsGet(ct, h, inner, c, |ct[c].fields|, id, o, k);
      assert ct[c].fields[..|ct[c].fields|] == ct[c].fields;
    }
  }

  /** Hidden fields: the map has an entry for exactly the names declared along
      the superclass chain, and the entry for a name is the field of the lowest
      class in the hierarchy that declares it, read from the object, with one
      more indent level. */
  lemma FieldMapShadowing(ct: ClassTable, h: Store, id: ObjId, o: Options, n: string)
    requires TableOk(ct) && id in h && h[id].Instance? && h[id].cls in ct
    ensures var classes := Ancestry(ct, h[id].cls);
            var r := Get(FieldMapOf(ct, h, id, o), n);
            match DeclaringIndex(ct, classes, n)
            case None => r.None?
            case Some(k) =>
              var c := classes[k];
              var f := LastDecl(ct[c].fields, n).value;
              && r.Some? && r.value.decl == f && r.value.definingClass == c
              && r.value.associatedObject == Some(id)
              && r.value.value == ReadField(ct, h, c, f, Some(id))
              && r.value.options == CloneAndAddIndent(o)
  {
    PutClassesGet(ct, h, [], Ancestry(ct, h[id].cls), id, CloneAndAddIndent(o), n);
  }

  /** What an ObjectInfo built from a well-formed heap satisfies; `seen` is the
      set of arrays an array info is rendered inside of. */
  ghost predicate InfoOk(ct: ClassTable, h: Store, info: ObjectInfo, seen: set<ObjId>)
  {
    match info
    case NullInfo(_) => true
    case ArrayInfo(a, _) => a in h && h[a].ArrayObj? && ArrayClosed(h, a, seen)
    case PrimitiveInfo(_, _, _) => true
    case CompositeInfo(id, _, fs) => id in h && EntriesOk(ct, h, fs)
  }

  /** The ArrayObjectInfo constructor. */
  function NewArrayInfo(h: Store, v: Value, o: Option<Options>): (r: Result<ObjectInfo>)
    requires ValueOk(h, v)
    ensures r.Success? <==> o.Some? && v.Ref? && h[v.id].ArrayObj?
    ensures r.Success? ==> r.value == ArrayInfo(v.id, o.value)
  {
    if o.None? then Failure(IllegalArgument("null second parameter"))
    else if v.Null? then Failure(NullPointer)
    else if !IsArray(h, v) then Failure(IllegalArgument("First input parameter is not an array object"))
    else Success(ArrayInfo(v.id, o.value))
  }

  /** The PrimitiveObjectInfo constructor. */
  function NewPrimitiveInfo(h: Store, v: Value, o: Option<Options>): (r: Result<ObjectInfo>)
    requires ValueOk(h, v)
    ensures r.Success? <==> o.Some? && v.Leaf?
    ensures r.Success? ==> r.value == PrimitiveInfo(v.cls, v.text, o.value)
  {
    if o.None? then Failure(IllegalArgument("null second parameter"))
    else
      match IsPrimitiveObject(h, v)
      case Failure(e) => Failure(e)
      case Success(false) => Failure(IllegalArgument("Input object is not of a primitive type."))
      case Success(true) => Success(PrimitiveInfo(v.cls, v.text, o.value))
  }

  /** The NonPrimitiveObjectInfo constructor. An array has no declared fields
      and neither has java.lang.Object, so built on an array it holds none. */
  function NewCompositeInfo(ct: ClassTable, h: Store, v: Value, o: Option<Options>): (r: Result<ObjectInfo>)
    requires Wf(ct, h) && ValueOk(h, v)
    ensures r.Success? <==> o.Some? && v.Ref?
    ensures r.Success? ==> r.value.CompositeInfo? && r.value.obj == v.id && r.value.options == o.value
    ensures r.Success? ==> InfoOk(ct, h, r.value, {})
    ensures r.Success? && h[v.id].ArrayObj? ==> r.value.fields == []
  {
    if o.None? then Failure(IllegalArgument("null second parameter"))
    else
      match IsPrimitiveObject(h, v)
      case Failure(e) => Failure(e)
      case Success(true) => Failure(IllegalArgument("Input object is of a primitive type"))
      case Success(false) =>
        if h[v.id].ArrayObj? then Success(CompositeInfo(v.id, o.value, []))
        else
          ObjectFacts(ct, h, v.id);
          FieldMapOk(ct, h, v.id, o.value);
          Success(CompositeInfo(v.id, o.value, FieldMapOf(ct, h, v.id, o.value)))
  }

  /** getObjectInfo's choice, once its arguments are checked: null, then
      array, then value type, and every other object is composite. */
  function Classify(ct: ClassTable, h: Store, v: Value, o: Options): (info: ObjectInfo)
    requires Wf(ct, h) && ValueOk(h, v)
    ensures info.options == o && InfoObject(info) == v
    ensures info.NullInfo? <==> v.Null?
    ensures info.ArrayInfo? <==> v.Ref? && h[v.id].ArrayObj?
    ensures info.PrimitiveInfo? <==> v.Leaf?
    ensures info.CompositeInfo? <==> v.Ref? && h[v.id].Instance?
    ensures info.CompositeInfo? ==> h[v.id].cls in ct && info.fields == FieldMapOf(ct, h, v.id, o)
    ensures !info.ArrayInfo? ==> InfoOk(ct, h, info, {})
  {
    if v.Null? then NullInfo(o)
    else if IsArray(h, v) then NewArrayInfo(h, v, Some(o)).value
    else if IsPrimitiveObject(h, v).value then NewPrimitiveInfo(h, v, Some(o)).value
    else
      ObjectFacts(ct, h, v.id);
      NewCompositeInfo(ct, h, v, Some(o)).value
  }
}
