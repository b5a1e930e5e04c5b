/** The string representation of an object graph, as a function of the objects
    being rendered along the current path (`tracked`, the contents of the
    CircularReferencePrevention) and, for termination only, of the arrays the
    current value is nested in since the last field (`seen`). */
module Representation {
  import opened Wrappers
  import opened Strings
  import opened SortedMap
  import opened ObjectModel
  import opened Utils
  import opened Fields
  import opened RepresentationOptions
  import opened ObjectInfos

  const PROCESSING := "<Object Processing>"

  /** Objects not yet on the current path. */
  function Unvisited(h: Store, tracked: set<ObjId>): nat
  {
    |h.Keys - tracked|
  }

  lemma AddShrinks(keys: set<ObjId>, s: set<ObjId>, x: ObjId)
    requires x in keys && x !in s
    ensures |keys - (s + {x})| < |keys - s|
  {
    assert keys - s == (keys - (s + {x})) + {x};
  }

  /** The rank of a value for termination: an array above a composite object
      above everything else, and an array inside fewer arrays above one inside
      more. */
  function Rank(h: Store, v: Value, seen: set<ObjId>): nat
  {
    if v.Ref? && v.id in h then (if h[v.id].ArrayObj? then |h.Keys - seen| + 2 else 1) else 0
  }

  function InfoRank(h: Store, info: ObjectInfo, seen: set<ObjId>): nat
  {
    match info
    case ArrayInfo(a, _) => |h.Keys - seen| + 2
    case CompositeInfo(_, _, _) => 1
    case _ => 0
  }

  function FieldRank(h: Store, fi: FieldInfo): nat
  {
    if fi.value.Ref? then Rank(h, fi.value, {}) + 1 else 1
  }

  /** ObjectInfo.getTypeName: the runtime class, by full or simple name. */
  function ObjectMeta(ct: ClassTable, h: Store, info: ObjectInfo): string
    requires Wf(ct, h) && !info.NullInfo? && ValueOk(h, InfoObject(info))
  {
    RuntimeTypeOk(ct, h, InfoObject(info));
    TypeName(ct, RuntimeType(h, InfoObject(info)), info.options.fullTypeName)
  }

  /** getObjectInfo(v, o, crp).getFullStringRepresentation(). */
  function Render(ct: ClassTable, h: Store, v: Value, o: Options, tracked: set<ObjId>, seen: set<ObjId>): string
    requires Wf(ct, h) && ValueOk(h, v)
    requires v.Ref? && h[v.id].ArrayObj? ==> ArrayClosed(h, v.id, seen)
    decreases Unvisited(h, tracked), Rank(h, v, seen), 4, 0
  {
    FullString(ct, h, Classify(ct, h, v, o), tracked, seen)
  }

  /** getFullStringRepresentation: the null representation for null, otherwise
      the metadata, objectMetaValueSeparator and the value string. */
  function FullString(ct: ClassTable, h: Store, info: ObjectInfo, tracked: set<ObjId>, seen: set<ObjId>): string
    requires Wf(ct, h) && InfoOk(ct, h, info, seen)
    decreases Unvisited(h, tracked), InfoRank(h, info, seen), 3, 0
  {
    if info.NullInfo? then info.options.nullRepresentation
    else ObjectMeta(ct, h, info) + info.options.objectMetaValueSeparator + ValueString(ct, h, info, tracked, seen)
  }

  /** getValueStringRepresentation of the three non-null kinds. */
  function ValueString(ct: ClassTable, h: Store, info: ObjectInfo, tracked: set<ObjId>, seen: set<ObjId>): string
    requires Wf(ct, h) && InfoOk(ct, h, info, seen) && !info.NullInfo?
    decreases Unvisited(h, tracked), InfoRank(h, info, seen), 2, 0
  {
    match info
    case PrimitiveInfo(c, text, _) =>
      if c == Str then "{\"" + text + "\"}"
      else if c == Boxed(Char) then "{'" + text + "'}"
      else "{" + text + "}"
    case ArrayInfo(a, o) =>
      var lines := ElementLines(ct, h, a, |h[a].elements|, CloneAndAddIndent(o), tracked, seen);
      "[\n" + Join(lines, ",\n") + "\n" + Indents(o) + "]"
    case CompositeInfo(_, o, fs) =>
      if |fs| < 1 then "{}"
      else "{\n" + Join(FieldLines(ct, h, fs, tracked), "," + o.newLine) + "\n" + Indents(o) + "}"
  }

  /** The lines of the first n elements of array a: each element's indentation
      and full representation, one level deeper. */
  function ElementLines(ct: ClassTable, h: Store, a: ObjId, n: nat, o: Options, tracked: set<ObjId>,
                        seen: set<ObjId>): (r: seq<string>)
    requires Wf(ct, h) && a in h && h[a].ArrayObj? && ArrayClosed(h, a, seen) && n <= |h[a].elements|
    ensures |r| == n
    decreases Unvisited(h, tracked), |h.Keys - seen| + 2, 1, n
  {
    if n == 0 then []
    else
      var e := h[a].elements[n - 1];
      AddShrinks(h.Keys, seen, a);
      assert ElementClosed(h, a, seen, n - 1);
      ElementLines(ct, h, a, n - 1, o, tracked, seen) + [Indents(o) + Render(ct, h, e, o, tracked, seen + {a})]
  }

  /** The lines of a composite object's fields, in the map's key order. */
  function FieldLines(ct: ClassTable, h: Store, fs: Entries<FieldInfo>, tracked: set<ObjId>): (r: seq<string>)
    requires Wf(ct, h) && EntriesOk(ct, h, fs)
    ensures |r| == |fs|
    decreases Unvisited(h, tracked), 1, 1, |fs|
  {
    if fs == [] then []
    else
      EntriesPrefixOk(ct, h, fs, |fs| - 1);
      assert EntryOk(ct, h, fs, |fs| - 1);
      FieldLines(ct, h, fs[..|fs| - 1], tracked) + [FieldLine(ct, h, fs[|fs| - 1].1, tracked)]
  }

  /** One field's line: a placeholder when its value is being rendered further
      up the path, the null representation for null, and otherwise the full
      representation with the value added to the path. */
  function FieldLine(ct: ClassTable, h: Store, fi: FieldInfo, tracked: set<ObjId>): string
    requires Wf(ct, h) && FieldInfoOk(ct, h, fi)
    decreases Unvisited(h, tracked), 1, 0, 3
  {
    var head := Indents(fi.options) + FieldMeta(ct, fi) + fi.options.fieldMetaValueSeparator;
    if fi.value.Ref? && fi.value.id in tracked then head + PROCESSING
    else if fi.value.Null? then head + fi.options.nullRepresentation
    else if fi.value.Ref? then
      AddShrinks(h.Keys, tracked, fi.value.id);
      Indents(fi.options) + FieldFull(ct, h, fi, tracked + {fi.value.id})
    else Indents(fi.options) + FieldFull(ct, h, fi, tracked)
  }

  /** FieldInfo.getFullStringRepresentation. */
  function FieldFull(ct: ClassTable, h: Store, fi: FieldInfo, tracked: set<ObjId>): string
    requires Wf(ct, h) && FieldInfoOk(ct, h, fi)
    decreases Unvisited(h, tracked), FieldRank(h, fi), 0, 2
  {
    FieldMeta(ct, fi) + fi.options.fieldMetaValueSeparator + FieldValue(ct, h, fi, tracked)
  }

  /** getValueStringRepresentation of the two field kinds: a literal for a
      value-type field, the value's own full representation otherwise. */
  function FieldValue(ct: ClassTable, h: Store, fi: FieldInfo, tracked: set<ObjId>): string
    requires Wf(ct, h) && FieldInfoOk(ct, h, fi)
    decreases Unvisited(h, tracked), FieldRank(h, fi), 0, 1
  {
    if fi.kind.PrimitiveField? then PrimitiveFieldValue(fi)
    else Render(ct, h, fi.value, fi.options, tracked, {})
  }

  /** Each field is rendered against the same tracked set: the line of a field
      depends on that field alone, never on its siblings. So an object reached
      through two sibling fields is written out in full both times. */
  lemma {:induction false} FieldLinesPointwise(ct: ClassTable, h: Store, fs: Entries<FieldInfo>, tracked: set<ObjId>)
    requires Wf(ct, h) && EntriesOk(ct, h, fs)
    ensures forall i | 0 <= i < |fs| :: EntryOk(ct, h, fs, i) && FieldLines(ct, h, fs, tracked)[i] == FieldLine(ct, h, fs[i].1, tracked)
  {
    forall i | 0 <= i < |fs|
      ensures EntryOk(ct, h, fs, i) && FieldLines(ct, h, fs, tracked)[i] == FieldLine(ct, h, fs[i].1, tracked)
    {
      FieldLinesAt(ct, h, fs, i, tracked);
    }
  }

  /** Line i of a field map is the line of field i. */
  lemma {:induction false} FieldLinesAt(ct: ClassTable, h: Store, fs: Entries<FieldInfo>, i: nat, tracked: set<ObjId>)
    requires Wf(ct, h) && EntriesOk(ct, h, fs) && i < |fs|
    ensures EntryOk(ct, h, fs, i)
    ensures FieldLines(ct, h, fs, tracked)[i] == FieldLine(ct, h, fs[i].1, tracked)
    decreases |fs|
  {
    var n := |fs| - 1;
    if i == n {
      FieldLinesLast(ct, h, fs, tracked);
    } else {
      var prefix := fs[..n];
      FieldLinesFront(ct, h, fs, i, tracked);
      FieldLinesAt(ct, h, prefix, i, tracked);
      assert EntryOk(ct, h, fs, i);
    }
  }

  /** Dropping the last field keeps the lines of the fields before it. */
  lemma FieldLinesFront(ct: ClassTable, h: Store, fs: Entries<FieldInfo>, i: nat, tracked: set<ObjId>)
    requires Wf(ct, h) && EntriesOk(ct, h, fs) && i < |fs| - 1
    ensures EntriesOk(ct, h, fs[..|fs| - 1]) && fs[..|fs| - 1][i] == fs[i]
    ensures FieldLines(ct, h, fs, tracked)[i] == FieldLines(ct, h, fs[..|fs| - 1], tracked)[i]
  {
    EntriesPrefixOk(ct, h, fs, |fs| - 1);
    assert EntryOk(ct, h, fs, |fs| - 1);
  }

  lemma FieldLinesLast(ct: ClassTable, h: Store, fs: Entries<FieldInfo>, tracked: set<ObjId>)
    requires Wf(ct, h) && EntriesOk(ct, h, fs) && fs != []
    ensures EntryOk(ct, h, fs, |fs| - 1)
    ensures FieldLines(ct, h, fs, tracked)[|fs| - 1] == FieldLine(ct, h, fs[|fs| - 1].1, tracked)
  {
    assert EntryOk(ct, h, fs, |fs| - 1);
  }

  /** One more element line: element i, rendered with the array added to the
      enclosing arrays, extends the lines of the first i elements. */
  lemma ElementLinesStep(ct: ClassTable, h: Store, a: ObjId, i: nat, o: Options, tracked: set<ObjId>,
                         seen: set<ObjId>)
    requires Wf(ct, h) && a in h && h[a].ArrayObj? && ArrayClosed(h, a, seen) && i < |h[a].elements|
    ensures ElementOk(h, a, i, seen)
    ensures ElementLines(ct, h, a, i + 1, o, tracked, seen)
              == ElementLines(ct, h, a, i, o, tracked, seen)
                 + [Indents(o) + Render(ct, h, h[a].elements[i], o, tracked, seen + {a})]
  {
    assert ElementClosed(h, a, seen, i);
  }

  /** Likewise for array elements: element i is rendered at one level deeper
      with the tracked set of the array itself. */
  lemma ElementLinesPointwise(ct: ClassTable, h: Store, a: ObjId, n: nat, o: Options,
                              tracked: set<ObjId>, seen: set<ObjId>)
    requires Wf(ct, h) && a in h && h[a].ArrayObj? && ArrayClosed(h, a, seen) && n <= |h[a].elements|
    ensures forall i | 0 <= i < n ::
              && ElementOk(h, a, i, seen)
              && ElementLines(ct, h, a, n, o, tracked, seen)[i]
                   == Indents(o) + Render(ct, h, h[a].elements[i], o, tracked, seen + {a})
  {
    forall i | 0 <= i < n
      ensures && ElementOk(h, a, i, seen)
              && ElementLines(ct, h, a, n, o, tracked, seen)[i]
                   == Indents(o) + Render(ct, h, h[a].elements[i], o, tracked, seen + {a})
    {
      ElementLinesAt(ct, h, a, n, i, o, tracked, seen);
    }
  }

  /** Element i of array a may be rendered inside a: it points into the heap
      and, if it is an array, does not lead back to a or an enclosing array. */
  ghost predicate ElementOk(h: Store, a: ObjId, i: nat, seen: set<ObjId>)
    requires a in h && h[a].ArrayObj? && i < |h[a].elements|
  {
    var e := h[a].elements[i];
    ValueOk(h, e) && (e.Ref? && h[e.id].ArrayObj? ==> ArrayClosed(h, e.id, seen + {a}))
  }

  /** Line i of the first n element lines is the line of element i. */
  lemma {:induction false} ElementLinesAt(ct: ClassTable, h: Store, a: ObjId, n: nat, i: nat, o: Options,
                                          tracked: set<ObjId>, seen: set<ObjId>)
    requires Wf(ct, h) && a in h && h[a].ArrayObj? && ArrayClosed(h, a, seen) && i < n <= |h[a].elements|
    ensures ElementOk(h, a, i, seen)
    ensures ElementLines(ct, h, a, n, o, tracked, seen)[i]
              == Indents(o) + Render(ct, h, h[a].elements[i], o, tracked, seen + {a})
    decreases n
  {
    if i == n - 1 {
      ElementLinesStep(ct, h, a, i, o, tracked, seen);
    } else {
      ElementLinesFront(ct, h, a, n, i, o, tracked, seen);
      ElementLinesAt(ct, h, a, n - 1, i, o, tracked, seen);
    }
  }

  /** Dropping the last element keeps the lines of the elements before it. */
  lemma ElementLinesFront(ct: ClassTable, h: Store, a: ObjId, n: nat, i: nat, o: Options,
                          tracked: set<ObjId>, seen: set<ObjId>)
    requires Wf(ct, h) && a in h && h[a].ArrayObj? && ArrayClosed(h, a, seen) && i < n - 1 && n <= |h[a].elements|
    ensures ElementLines(ct, h, a, n, o, tracked, seen)[i] == ElementLines(ct, h, a, n - 1, o, tracked, seen)[i]
  {
    ElementLinesStep(ct, h, a, n - 1, o, tracked, seen);
  }

  predicate EndsWith(s: string, suffix: string)
  {
    |suffix| <= |s| && s[|s| - |suffix|..] == suffix
  }

  /** s ends with the closing character c. */
  predicate Closes(s: string, c: char)
  {
    |s| > 0 && s[|s| - 1] == c
  }

  lemma ValueStringCloses(ct: ClassTable, h: Store, info: ObjectInfo, tracked: set<ObjId>, seen: set<ObjId>)
    requires Wf(ct, h) && InfoOk(ct, h, info, seen) && (info.ArrayInfo? || info.CompositeInfo?)
    ensures Closes(ValueString(ct, h, info, tracked, seen), if info.ArrayInfo? then ']' else '}')
  {
    var s := ValueString(ct, h, info, tracked, seen);
    match info
    case ArrayInfo(a, o) =>
      var lines := ElementLines(ct, h, a, |h[a].elements|, CloneAndAddIndent(o), tracked, seen);
      assert s == ("[\n" + Join(lines, ",\n") + "\n" + Indents(o)) + "]";
    case CompositeInfo(_, o, fs) =>
      if |fs| >= 1 {
        assert s == ("{\n" + Join(FieldLines(ct, h, fs, tracked), "," + o.newLine) + "\n" + Indents(o)) + "}";
      }
  }

  /** The representation of an array ends with ']' and that of any other heap
      object with '}'. */
  lemma RenderRefCloses(ct: ClassTable, h: Store, v: Value, o: Options, tracked: set<ObjId>, seen: set<ObjId>)
    requires Wf(ct, h) && ValueOk(h, v) && v.Ref?
    requires h[v.id].ArrayObj? ==> ArrayClosed(h, v.id, seen)
    ensures Closes(Render(ct, h, v, o, tracked, seen), if h[v.id].ArrayObj? then ']' else '}')
  {
    var info := Classify(ct, h, v, o);
    var s := Render(ct, h, v, o, tracked, seen);
    var vs := ValueString(ct, h, info, tracked, seen);
    ValueStringCloses(ct, h, info, tracked, seen);
    assert s == FullString(ct, h, info, tracked, seen);
    assert !info.NullInfo?;
    assert s == (ObjectMeta(ct, h, info) + info.options.objectMetaValueSeparator) + vs;
  }

  /** A field holding a heap object shows the placeholder exactly when that
      object is already on the current path; otherwise its line ends with the
      object's closing bracket. */
  lemma FieldLinePlaceholder(ct: ClassTable, h: Store, fi: FieldInfo, tracked: set<ObjId>)
    requires Wf(ct, h) && FieldInfoOk(ct, h, fi) && fi.value.Ref?
    ensures EndsWith(FieldLine(ct, h, fi, tracked), PROCESSING) <==> fi.value.id in tracked
  {
    var line := FieldLine(ct, h, fi, tracked);
    var head := Indents(fi.options) + FieldMeta(ct, fi) + fi.options.fieldMetaValueSeparator;
    if fi.value.id in tracked {
      TrackedFieldLine(ct, h, fi, tracked);
      EndsWithAppend(head, PROCESSING);
    } else {
      var t' := tracked + {fi.value.id};
      var r := Render(ct, h, fi.value, fi.options, t', {});
      UntrackedFieldLine(ct, h, fi, tracked);
      RenderRefCloses(ct, h, fi.value, fi.options, t', {});
      ClosedNotPlaceholder(head, r);
    }
  }

  lemma EndsWithAppend(s: string, suffix: string)
    ensures EndsWith(s + suffix, suffix)
  {
    assert (s + suffix)[|s|..] == suffix;
  }

  /** A line ending in a closing bracket does not end with the placeholder. */
  lemma ClosedNotPlaceholder(head: string, r: string)
    requires Closes(r, ']') || Closes(r, '}')
    ensures !EndsWith(head + r, PROCESSING)
  {
    var line := head + r;
    if |PROCESSING| <= |line| {
      var tail := line[|line| - |PROCESSING|..];
      assert tail[|PROCESSING| - 1] == r[|r| - 1];
    }
  }

  /** The line of a field whose object is already on the path: the field's
      metadata followed by the placeholder. */
  lemma TrackedFieldLine(ct: ClassTable, h: Store, fi: FieldInfo, tracked: set<ObjId>)
    requires Wf(ct, h) && FieldInfoOk(ct, h, fi) && fi.value.Ref? && fi.value.id in tracked
    ensures FieldLine(ct, h, fi, tracked)
              == Indents(fi.options) + FieldMeta(ct, fi) + fi.options.fieldMetaValueSeparator + PROCESSING
  {
  }

  /** The line of a field whose object is not yet on the path: the object is
      rendered in full with itself added to the path. */
  lemma UntrackedFieldLine(ct: ClassTable, h: Store, fi: FieldInfo, tracked: set<ObjId>)
    requires Wf(ct, h) && FieldInfoOk(ct, h, fi) && fi.value.Ref? && fi.value.id !in tracked
    ensures fi.kind.NonPrimitiveField?
    ensures FieldLine(ct, h, fi, tracked)
              == Indents(fi.options) + FieldMeta(ct, fi) + fi.options.fieldMetaValueSeparator
                 + Render(ct, h, fi.value, fi.options, tracked + {fi.value.id}, {})
  {
    var t' := tracked + {fi.value.id};
    assert fi.kind.NonPrimitiveField?;
    assert FieldValue(ct, h, fi, t') == Render(ct, h, fi.value, fi.options, t', {});
    assert FieldLine(ct, h, fi, tracked) == Indents(fi.options) + FieldFull(ct, h, fi, t');
    var sep := fi.options.fieldMetaValueSeparator;
    AppendAssoc(Indents(fi.options), FieldMeta(ct, fi) + sep, FieldValue(ct, h, fi, t'));
    AppendAssoc(Indents(fi.options), FieldMeta(ct, fi), sep);
  }

  /** null is shown as the null representation, whatever is tracked. */
  lemma RenderNull(ct: ClassTable, h: Store, o: Options, tracked: set<ObjId>, seen: set<ObjId>)
    requires Wf(ct, h)
    ensures Render(ct, h, Null, o, tracked, seen) == o.nullRepresentation
  {
    assert Classify(ct, h, Null, o) == NullInfo(o);
  }

  /** A boxed primitive or String is shown as its runtime type name, the
      object separator and its text in braces, quoted for String and char. */
  lemma RenderLeaf(ct: ClassTable, h: Store, c: LeafClass, text: string, o: Options, tracked: set<ObjId>,
                   seen: set<ObjId>)
    requires Wf(ct, h)
    ensures Render(ct, h, Leaf(c, text), o, tracked, seen)
              == ObjectMeta(ct, h, PrimitiveInfo(c, text, o)) + o.objectMetaValueSeparator
                 + (if c == Str then "{\"" + text + "\"}"
                    else if c == Boxed(Char) then "{'" + text + "'}"
                    else "{" + text + "}")
  {
    var info := Classify(ct, h, Leaf(c, text), o);
    assert info == PrimitiveInfo(c, text, o);
    assert Render(ct, h, Leaf(c, text), o, tracked, seen) == FullString(ct, h, info, tracked, seen);
    assert ValueString(ct, h, info, tracked, seen)
             == if c == Str then "{\"" + text + "\"}" else if c == Boxed(Char) then "{'" + text + "'}" else "{" + text + "}";
  }

  /** An array without elements is shown as its type name, the object
      separator, and the brackets on two lines, the closing one indented. */
  lemma RenderEmptyArray(ct: ClassTable, h: Store, a: ObjId, o: Options, tracked: set<ObjId>, seen: set<ObjId>)
    requires Wf(ct, h) && a in h && h[a].ArrayObj? && h[a].elements == [] && a !in seen
    ensures ArrayClosed(h, a, seen)
    ensures Render(ct, h, Ref(a), o, tracked, seen)
              == ObjectMeta(ct, h, ArrayInfo(a, o)) + o.objectMetaValueSeparator + "[\n\n" + Indents(o) + "]"
  {
    var info := Classify(ct, h, Ref(a), o);
    assert info == ArrayInfo(a, o);
    assert ElementLines(ct, h, a, 0, CloneAndAddIndent(o), tracked, seen) == [];
    assert ValueString(ct, h, info, tracked, seen) == "[\n\n" + Indents(o) + "]";
  }

  /** An object whose class and superclasses declare no fields is shown as its
      type name, the object separator and "{}". */
  lemma RenderNoFields(ct: ClassTable, h: Store, id: ObjId, o: Options, tracked: set<ObjId>, seen: set<ObjId>)
    requires Wf(ct, h) && id in h && h[id].Instance? && h[id].cls in ct
    requires forall k | 0 <= k < |Ancestry(ct, h[id].cls)| :: ct[Ancestry(ct, h[id].cls)[k]].fields == []
    ensures Render(ct, h, Ref(id), o, tracked, seen)
              == ObjectMeta(ct, h, CompositeInfo(id, o, [])) + o.objectMetaValueSeparator + "{}"
  {
    PutClassesNone(ct, h, [], Ancestry(ct, h[id].cls), id, CloneAndAddIndent(o));
    var info := Classify(ct, h, Ref(id), o);
    assert info == CompositeInfo(id, o, []);
    assert Render(ct, h, Ref(id), o, tracked, seen) == FullString(ct, h, info, tracked, seen);
  }

  /** A null array element's line is the deeper indentation followed by the
      null representation. */
  lemma NullElementLine(ct: ClassTable, h: Store, a: ObjId, i: nat, o: Options, tracked: set<ObjId>,
                        seen: set<ObjId>)
    requires Wf(ct, h) && a in h && h[a].ArrayObj? && ArrayClosed(h, a, seen) && i < |h[a].elements|
    requires h[a].elements[i].Null?
    ensures ElementLines(ct, h, a, |h[a].elements|, o, tracked, seen)[i] == Indents(o) + o.nullRepresentation
  {
    ElementLinesAt(ct, h, a, |h[a].elements|, i, o, tracked, seen);
    RenderNull(ct, h, o, tracked, seen + {a});
  }

  /** A boxed primitive or String held by a field of a non-value declared type
      (Object, say) is shown in the braced object form, with its runtime type
      name, rather than as a field literal. */
  lemma ObjectFieldHoldingLeaf(ct: ClassTable, h: Store, fi: FieldInfo, tracked: set<ObjId>)
    requires Wf(ct, h) && FieldInfoOk(ct, h, fi) && fi.kind.NonPrimitiveField? && fi.value.Leaf?
    ensures var c, text := fi.value.cls, fi.value.text;
            FieldValue(ct, h, fi, tracked)
              == ObjectMeta(ct, h, PrimitiveInfo(c, text, fi.options)) + fi.options.objectMetaValueSeparator
                 + (if c == Str then "{\"" + text + "\"}"
                    else if c == Boxed(Char) then "{'" + text + "'}"
                    else "{" + text + "}")
  {
    RenderLeaf(ct, h, fi.value.cls, fi.value.text, fi.options, tracked, {});
  }

  /** The null line written directly is the line the general path would write:
      for either field kind a null value is shown as the null representation. */
  lemma NullFieldLineCoherent(ct: ClassTable, h: Store, fi: FieldInfo, tracked: set<ObjId>)
    requires Wf(ct, h) && FieldInfoOk(ct, h, fi) && fi.value.Null?
    ensures FieldLine(ct, h, fi, tracked) == Indents(fi.options) + FieldFull(ct, h, fi, tracked)
  {
    RenderNull(ct, h, fi.options, tracked, {});
    assert FieldValue(ct, h, fi, tracked) == fi.options.nullRepresentation;
    var sep := fi.options.fieldMetaValueSeparator;
    AppendAssoc(Indents(fi.options), FieldMeta(ct, fi) + sep, fi.options.nullRepresentation);
    AppendAssoc(Indents(fi.options), FieldMeta(ct, fi), sep);
  }
}
