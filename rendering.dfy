/** The imperative object reader: getObjectInfo, the NonPrimitiveObjectInfo
    constructor's loops, and the getValueStringRepresentation loops that add
    and remove objects from a shared CircularReferencePrevention. Each method
    computes what the Representation functions specify and leaves the tracker
    as it found it. */
module Rendering {
  import opened Wrappers
  import opened Strings
  import opened SortedMap
  import opened ObjectModel
  import opened Utils
  import opened Fields
  import opened RepresentationOptions
  import opened ObjectInfos
  import opened Representation
  import opened Tracking

  /** The NonPrimitiveObjectInfo constructor's loop over the participating
      classes, root class first. */
  method BuildFieldMap(ct: ClassTable, h: Store, id: ObjId, o: Options) returns (m: Entries<FieldInfo>)
    requires TableOk(ct) && id in h && h[id].Instance? && h[id].cls in ct && !ct[h[id].cls].isInterface
    ensures m == FieldMapOf(ct, h, id, o)
  {
    var participating := GetParticipatingClasses(ct, h[id].cls);
    var classes := participating.value;
    var fieldOptions := CloneAndAddIndent(o);
    m := [];
    var k := 0;
    while k < |classes|
      invariant 0 <= k <= |classes|
      invariant m == PutClasses(ct, h, [], classes[..k], id, fieldOptions)
    {
      assert classes[..k + 1][..k] == classes[..k];
      m := PutClassFields(ct, h, m, classes[k], id, fieldOptions);
      k := k + 1;
    }
    assert classes[..k] == classes;
  }

  /** The inner loop over the fields class c declares: each FieldInfo is put
      under its name, replacing an entry of the same name. */
  method PutClassFields(ct: ClassTable, h: Store, m0: Entries<FieldInfo>, c: ClassId, id: ObjId, o: Options)
    returns (m: Entries<FieldInfo>)
    requires Sorted(m0) && c in ct
    ensures m == PutDecls(ct, h, m0, c, |ct[c].fields|, id, o)
  {
    var fields := ct[c].fields;
    m := m0;
    var j := 0;
    while j < |fields|
      invariant 0 <= j <= |fields|
      invariant m == PutDecls(ct, h, m0, c, j, id, o)
    {
      var fi := GetFieldInfo(ct, h, fields[j], c, Some(id), o);
      PutDeclsStep(ct, h, m0, c, j, id, o);
      m := Put(m, fields[j].name, fi.value);
      j := j + 1;
    }
  }

  /** getObjectInfo: rejects a null options or tracker, then picks the kind. */
  method GetObjectInfo(ct: ClassTable, h: Store, v: Value, options: Option<Options>, crp: Tracker?)
    returns (r: Result<ObjectInfo>)
    requires Wf(ct, h) && ValueOk(h, v)
    ensures options.None? ==> r == Failure(IllegalArgument("null 2nd argument"))
    ensures options.Some? && crp == null ==> r == Failure(IllegalArgument("null 3rd argument"))
    ensures r.Success? <==> options.Some? && crp != null
    ensures r.Success? ==> r.value == Classify(ct, h, v, options.value)
  {
    if options.None? {
      return Failure(IllegalArgument("null 2nd argument"));
    }
    if crp == null {
      return Failure(IllegalArgument("null 3rd argument"));
    }
    var o := options.value;
    if v.Null? {
      return Success(NullInfo(o));
    }
    if IsArray(h, v) {
      return NewArrayInfo(h, v, options);
    }
    if IsPrimitiveObject(h, v).value {
      return NewPrimitiveInfo(h, v, options);
    }
    ObjectFacts(ct, h, v.id);
    var fields := BuildFieldMap(ct, h, v.id, o);
    return Success(CompositeInfo(v.id, o, fields));
  }

  /** getObjectInfo(v, o, crp).getFullStringRepresentation(). */
  method RenderValue(ct: ClassTable, h: Store, v: Value, o: Options, crp: Tracker, ghost seen: set<ObjId>)
    returns (s: string)
    requires Wf(ct, h) && ValueOk(h, v)
    requires v.Ref? && h[v.id].ArrayObj? ==> ArrayClosed(h, v.id, seen)
    modifies crp
    ensures s == Render(ct, h, v, o, old(crp.contents), seen)
    ensures crp.contents == old(crp.contents)
    decreases Unvisited(h, crp.contents), Rank(h, v, seen), 4, 0
  {
    var info := GetObjectInfo(ct, h, v, Some(o), crp);
    s := FullStringOf(ct, h, info.value, crp, seen);
  }

  /** getFullStringRepresentation of an ObjectInfo. */
  method FullStringOf(ct: ClassTable, h: Store, info: ObjectInfo, crp: Tracker, ghost seen: set<ObjId>)
    returns (s: string)
    requires Wf(ct, h) && InfoOk(ct, h, info, seen)
    modifies crp
    ensures s == FullString(ct, h, info, old(crp.contents), seen)
    ensures crp.contents == old(crp.contents)
    decreases Unvisited(h, crp.contents), InfoRank(h, info, seen), 3, 0
  {
    if info.NullInfo? {
      return info.options.nullRepresentation;
    }
    var value := ValueStringOf(ct, h, info, crp, seen);
    s := ObjectMeta(ct, h, info) + info.options.objectMetaValueSeparator + value;
  }

  /** getValueStringRepresentation of the three non-null kinds. */
  method ValueStringOf(ct: ClassTable, h: Store, info: ObjectInfo, crp: Tracker, ghost seen: set<ObjId>)
    returns (s: string)
    requires Wf(ct, h) && InfoOk(ct, h, info, seen) && !info.NullInfo?
    modifies crp
    ensures s == ValueString(ct, h, info, old(crp.contents), seen)
    ensures crp.contents == old(crp.contents)
    decreases Unvisited(h, crp.contents), InfoRank(h, info, seen), 2, 0
  {
    match info
    case PrimitiveInfo(c, text, _) =>
      if c == Str {
        s := "{\"" + text + "\"}";
      } else if c == Boxed(Char) {
        s := "{'" + text + "'}";
      } else {
        s := "{" + text + "}";
      }
    case ArrayInfo(a, o) =>
      s := ArrayValueString(ct, h, a, o, crp, seen);
    case CompositeInfo(_, o, fs) =>
      s := CompositeValueString(ct, h, fs, o, crp);
  }

  /** ArrayObjectInfo.getValueStringRepresentation: a joiner over the elements,
      each rendered one level deeper. */
  method ArrayValueString(ct: ClassTable, h: Store, a: ObjId, o: Options, crp: Tracker, ghost seen: set<ObjId>)
    returns (s: string)
    requires Wf(ct, h) && a in h && h[a].ArrayObj? && ArrayClosed(h, a, seen)
    modifies crp
    ensures s == ValueString(ct, h, ArrayInfo(a, o), old(crp.contents), seen)
    ensures crp.contents == old(crp.contents)
    decreases Unvisited(h, crp.contents), |h.Keys - seen| + 2, 1, 0
  {
    var joined := JoinElements(ct, h, a, CloneAndAddIndent(o), crp, seen);
    var indents := GetIndents(o);
    s := "[\n" + joined + "\n" + indents + "]";
  }

  /** The joiner loop of ArrayObjectInfo.getValueStringRepresentation: element
      by element in index order, each line the deeper indentation followed by
      the element's full representation. */
  method JoinElements(ct: ClassTable, h: Store, a: ObjId, o: Options, crp: Tracker, ghost seen: set<ObjId>)
    returns (joined: string)
    requires Wf(ct, h) && a in h && h[a].ArrayObj? && ArrayClosed(h, a, seen)
    modifies crp
    ensures joined == Join(ElementLines(ct, h, a, |h[a].elements|, o, old(crp.contents), seen), ",\n")
    ensures crp.contents == old(crp.contents)
    decreases Unvisited(h, crp.contents), |h.Keys - seen| + 2, 0, 1
  {
    ghost var tracked := crp.contents;
    var n := |h[a].elements|;
    ghost var lines := ElementLines(ct, h, a, n, o, tracked, seen);
    joined := "";
    var i := 0;
    while i < n
      invariant 0 <= i <= n == |lines|
      invariant crp.contents == tracked
      invariant joined == Join(lines[..i], ",\n")
    {
      var line := ElementLineOf(ct, h, a, i, o, crp, seen, lines);
      JoinStep(lines, i, joined, ",\n");
      if i == 0 {
        joined := line;
      } else {
        joined := joined + ",\n" + line;
      }
      i := i + 1;
    }
    TakeAll(lines);
  }

  /** The line of element i: the indentation, then the element rendered with
      the same tracker. */
  method ElementLineOf(ct: ClassTable, h: Store, a: ObjId, i: nat, o: Options, crp: Tracker, ghost seen: set<ObjId>,
                       ghost lines: seq<string>)
    returns (line: string)
    requires Wf(ct, h) && a in h && h[a].ArrayObj? && ArrayClosed(h, a, seen) && i < |h[a].elements|
    requires lines == ElementLines(ct, h, a, |h[a].elements|, o, crp.contents, seen)
    modifies crp
    ensures line == lines[i]
    ensures crp.contents == old(crp.contents)
    decreases Unvisited(h, crp.contents), |h.Keys - seen| + 2, 0, 0
  {
    AddShrinks(h.Keys, seen, a);
    ElementLinesAt(ct, h, a, |h[a].elements|, i, o, crp.contents, seen);
    var indents := GetIndents(o);
    var element := RenderValue(ct, h, h[a].elements[i], o, crp, seen + {a});
    line := indents + element;
  }

  /** NonPrimitiveObjectInfo.getValueStringRepresentation: for each field in
      name order, the placeholder if its value is tracked, the null line for
      null, and otherwise the full line with the value tracked meanwhile. */
  method CompositeValueString(ct: ClassTable, h: Store, fs: Entries<FieldInfo>, o: Options, crp: Tracker)
    returns (s: string)
    requires Wf(ct, h) && EntriesOk(ct, h, fs)
    modifies crp
    ensures s == (if |fs| < 1 then "{}"
                  else "{\n" + Join(FieldLines(ct, h, fs, old(crp.contents)), "," + o.newLine) + "\n" + Indents(o) + "}")
    ensures crp.contents == old(crp.contents)
    decreases Unvisited(h, crp.contents), 1, 1, 0
  {
    if |fs| < 1 {
      return "{}";
    }
    var joined := JoinFields(ct, h, fs, "," + o.newLine, crp);
    var indents := GetIndents(o);
    s := "{\n" + joined + "\n" + indents + "}";
  }

  /** The joiner loop of NonPrimitiveObjectInfo.getValueStringRepresentation:
      one line per field, in the map's order. */
  method JoinFields(ct: ClassTable, h: Store, fs: Entries<FieldInfo>, separator: string, crp: Tracker)
    returns (joined: string)
    requires Wf(ct, h) && EntriesOk(ct, h, fs)
    modifies crp
    ensures joined == Join(FieldLines(ct, h, fs, old(crp.contents)), separator)
    ensures crp.contents == old(crp.contents)
    decreases Unvisited(h, crp.contents), 1, 0, 5
  {
    ghost var tracked := crp.contents;
    ghost var lines := FieldLines(ct, h, fs, tracked);
    joined := "";
    var i := 0;
    while i < |fs|
      invariant 0 <= i <= |fs|
      invariant crp.contents == tracked
      invariant joined == Join(lines[..i], separator)
    {
      var line := FieldLineAt(ct, h, fs, i, crp, lines);
      JoinStep(lines, i, joined, separator);
      if i == 0 {
        joined := line;
      } else {
        joined := joined + separator + line;
      }
      i := i + 1;
    }
    TakeAll(lines);
  }

  /** The line of the field at position i of the map. */
  method FieldLineAt(ct: ClassTable, h: Store, fs: Entries<FieldInfo>, i: nat, crp: Tracker,
                     ghost lines: seq<string>)
    returns (line: string)
    requires Wf(ct, h) && EntriesOk(ct, h, fs) && i < |fs|
    requires lines == FieldLines(ct, h, fs, crp.contents)
    modifies crp
    ensures line == lines[i]
    ensures crp.contents == old(crp.contents)
    decreases Unvisited(h, crp.contents), 1, 0, 4
  {
    FieldLinesAt(ct, h, fs, i, crp.contents);
    line := FieldLineOf(ct, h, fs[i].1, crp);
  }

  /** The body of the field loop for one field. */
  method FieldLineOf(ct: ClassTable, h: Store, fi: FieldInfo, crp: Tracker) returns (line: string)
    requires Wf(ct, h) && FieldInfoOk(ct, h, fi)
    modifies crp
    ensures line == FieldLine(ct, h, fi, old(crp.contents))
    ensures crp.contents == old(crp.contents)
    decreases Unvisited(h, crp.contents), 1, 0, 3
  {
    var indents := GetIndents(fi.options);
    var head := indents + FieldMeta(ct, fi) + fi.options.fieldMetaValueSeparator;
    var found := false;
    if fi.value.Ref? {
      found := crp.CheckExists(fi.value.id);
    }
    if found {
      line := head + PROCESSING;
    } else if fi.value.Null? {
      line := head + fi.options.nullRepresentation;
    } else if fi.value.Ref? {
      AddShrinks(h.Keys, crp.contents, fi.value.id);
      crp.Add(fi.value.id);
      var full := FieldFullOf(ct, h, fi, crp);
      crp.Remove(fi.value.id);
      line := indents + full;
    } else {
      var full := FieldFullOf(ct, h, fi, crp);
      line := indents + full;
    }
  }

  /** FieldInfo.getFullStringRepresentation. */
  method FieldFullOf(ct: ClassTable, h: Store, fi: FieldInfo, crp: Tracker) returns (s: string)
    requires Wf(ct, h) && FieldInfoOk(ct, h, fi)
    modifies crp
    ensures s == FieldFull(ct, h, fi, old(crp.contents))
    ensures crp.contents == old(crp.contents)
    decreases Unvisited(h, crp.contents), FieldRank(h, fi), 0, 2
  {
    var value := FieldValueOf(ct, h, fi, crp);
    s := FieldMeta(ct, fi) + fi.options.fieldMetaValueSeparator + value;
  }

  /** getValueStringRepresentation of the two field kinds. */
  method FieldValueOf(ct: ClassTable, h: Store, fi: FieldInfo, crp: Tracker) returns (s: string)
    requires Wf(ct, h) && FieldInfoOk(ct, h, fi)
    modifies crp
    ensures s == FieldValue(ct, h, fi, old(crp.contents))
    ensures crp.contents == old(crp.contents)
    decreases Unvisited(h, crp.contents), FieldRank(h, fi), 0, 1
  {
    if fi.kind.PrimitiveField? {
      s := PrimitiveFieldValue(fi);
    } else {
      s := RenderValue(ct, h, fi.value, fi.options, crp, {});
    }
  }
}
