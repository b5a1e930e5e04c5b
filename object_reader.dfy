/** ObjectReader: the entry points. Each read starts a new, empty
    CircularReferencePrevention, so the root object is never tracked. */
module Reader {
  import opened Wrappers
  import opened ObjectModel
  import opened RepresentationOptions
  import opened ObjectInfos
  import opened Representation
  import opened Tracking
  import opened Rendering

  /** getDefaultOptions: Builder.build().get(). */
  method GetDefaultOptions() returns (o: Options)
    ensures o == DefaultOptions()
  {
    var b := new Builder.Build();
    o := b.Get();
  }

  /** What read returns for v: its full representation from the root, with
      nothing tracked and no enclosing array. */
  function ReadString(ct: ClassTable, h: Store, v: Value, o: Options): string
    requires Wf(ct, h) && ValueOk(h, v)
  {
    if v.Ref? then ObjectFacts(ct, h, v.id); Render(ct, h, v, o, {}, {})
    else Render(ct, h, v, o, {}, {})
  }

  /** read(object, options): getObjectInfo with a fresh tracker, then its full
      representation. Only a null options argument is rejected. */
  method Read(ct: ClassTable, h: Store, v: Value, options: Option<Options>) returns (r: Result<string>)
    requires Wf(ct, h) && ValueOk(h, v)
    ensures r.Failure? <==> options.None?
    ensures options.None? ==> r == Failure(IllegalArgument("null 2nd argument"))
    ensures r.Success? ==> r.value == ReadString(ct, h, v, options.value)
    ensures r.Success? && v.Null? ==> r.value == options.value.nullRepresentation
  {
    if v.Ref? {
      ObjectFacts(ct, h, v.id);
    }
    var crp := new Tracker();
    var info := GetObjectInfo(ct, h, v, options, crp);
    if info.Failure? {
      return Failure(info.error);
    }
    var s := FullStringOf(ct, h, info.value, crp, {});
    if v.Null? {
      RenderNull(ct, h, options.value, {}, {});
    }
    return Success(s);
  }

  /** read(object): read with the default options, which never fails. */
  method ReadDefault(ct: ClassTable, h: Store, v: Value) returns (s: string)
    requires Wf(ct, h) && ValueOk(h, v)
    ensures s == ReadString(ct, h, v, DefaultOptions())
  {
    var o := GetDefaultOptions();
    var r := Read(ct, h, v, Some(o));
    s := r.value;
  }

  /** read("asd") and read(1010) with the default options: the simple class
      name, ':', and the toString text in the braces of its kind. */
  lemma ReadLeafExamples(ct: ClassTable, h: Store)
    requires Wf(ct, h)
    ensures ReadString(ct, h, Leaf(Str, "asd"), DefaultOptions()) == "String:{\"asd\"}"
    ensures ReadString(ct, h, Leaf(Boxed(Int), "1010"), DefaultOptions()) == "Integer:{1010}"
    ensures ReadString(ct, h, Leaf(Boxed(Char), "x"), DefaultOptions()) == "Character:{'x'}"
  {
    RenderLeaf(ct, h, Str, "asd", DefaultOptions(), {}, {});
    RenderLeaf(ct, h, Boxed(Int), "1010", DefaultOptions(), {}, {});
    RenderLeaf(ct, h, Boxed(Char), "x", DefaultOptions(), {}, {});
  }
}
