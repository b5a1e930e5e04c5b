/** FieldInfo and its two kinds: a field of a given object (or a static field),
    its metadata and the value read from it. */
module Fields {
  import opened Wrappers
  import opened Modifiers
  import opened ObjectModel
  import opened Utils
  import opened RepresentationOptions
  import opened Strings

  /** PrimitiveFieldInfo (declared type is a value type) or NonPrimitiveFieldInfo. */
  datatype FieldKind = PrimitiveField | NonPrimitiveField

  /** The state a FieldInfo captures at construction; name, fieldType and
      modifiers are those of `decl`. */
  datatype FieldInfo = FieldInfo(
    kind: FieldKind,
    decl: FieldDecl,
    definingClass: ClassId,
    associatedObject: Option<ObjId>,
    value: Value,
    options: Options)

  /** The FieldInfo constructor: the four argument checks in order, then the
      field is read with its access check overridden. */
  function ConstructFieldInfo(ct: ClassTable, h: Store, kind: FieldKind, field: Option<FieldDecl>,
                              definingClass: Option<ClassId>, associated: Option<ObjId>,
                              options: Option<Options>): (r: Result<FieldInfo>)
    ensures field.None? ==> r == Failure(IllegalArgument("null first parameter"))
    ensures field.Some? && definingClass.None? ==> r == Failure(IllegalArgument("null second parameter"))
    ensures field.Some? && definingClass.Some? && associated.None? && !IsStatic(field.value.modifiers) ==>
      r == Failure(IllegalArgument("null third parameter (associatedObject) with non static field"))
    ensures field.Some? && definingClass.Some? && (associated.Some? || IsStatic(field.value.modifiers)) && options.None?
      ==> r == Failure(IllegalArgument("null fourth parameter"))
    ensures r.Success? <==>
      field.Some? && definingClass.Some? && options.Some?
      && (associated.Some? || IsStatic(field.value.modifiers))
    ensures r.Success? ==>
      && r.value.kind == kind && r.value.decl == field.value
      && r.value.definingClass == definingClass.value && r.value.associatedObject == associated
      && r.value.options == options.value
      && r.value.value == ReadField(ct, h, definingClass.value, field.value, associated)
  {
    if field.None? then Failure(IllegalArgument("null first parameter"))
    else if definingClass.None? then Failure(IllegalArgument("null second parameter"))
    else if associated.None? && !IsStatic(field.value.modifiers) then
      Failure(IllegalArgument("null third parameter (associatedObject) with non static field"))
    else if options.None? then Failure(IllegalArgument("null fourth parameter"))
    else
      var f := field.value;
      Success(FieldInfo(kind, f, definingClass.value, associated,
                        ReadField(ct, h, definingClass.value, f, associated), options.value))
  }

  /** The PrimitiveFieldInfo constructor: the base checks, then the declared
      type must be a value type. */
  function NewPrimitiveFieldInfo(ct: ClassTable, h: Store, field: Option<FieldDecl>,
                                 definingClass: Option<ClassId>, associated: Option<ObjId>,
                                 options: Option<Options>): (r: Result<FieldInfo>)
    ensures r.Success? <==>
      ConstructFieldInfo(ct, h, PrimitiveField, field, definingClass, associated, options).Success?
      && IsValueType(field.value.declaredType)
    ensures r.Success? ==> r.value.kind.PrimitiveField?
  {
    var base := ConstructFieldInfo(ct, h, PrimitiveField, field, definingClass, associated, options);
    if base.Failure? then base
    else if !IsPrimitiveClass(base.value.decl.declaredType) then
      Failure(IllegalArgument("The field's data type is not of a primitive type."))
    else base
  }

  /** The NonPrimitiveFieldInfo constructor: the base checks, then the declared
      type must not be a value type. */
  function NewNonPrimitiveFieldInfo(ct: ClassTable, h: Store, field: Option<FieldDecl>,
                                    definingClass: Option<ClassId>, associated: Option<ObjId>,
                                    options: Option<Options>): (r: Result<FieldInfo>)
    ensures r.Success? <==>
      ConstructFieldInfo(ct, h, NonPrimitiveField, field, definingClass, associated, options).Success?
      && !IsValueType(field.value.declaredType)
    ensures r.Success? ==> r.value.kind.NonPrimitiveField?
  {
    var base := ConstructFieldInfo(ct, h, NonPrimitiveField, field, definingClass, associated, options);
    if base.Failure? then base
    else if IsPrimitiveClass(base.value.decl.declaredType) then
      Failure(IllegalArgument("The field's data type is of a primitive type."))
    else base
  }

  /** getFieldInfo: picks the kind from the declared type, so the kind check of
      the chosen constructor never fails; only a missing associated object for
      an instance field does. */
  function GetFieldInfo(ct: ClassTable, h: Store, f: FieldDecl, c: ClassId, associated: Option<ObjId>,
                        o: Options): (r: Result<FieldInfo>)
    ensures r.Success? <==> associated.Some? || IsStatic(f.modifiers)
    ensures r.Success? ==>
      && (r.value.kind.PrimitiveField? <==> IsValueType(f.declaredType))
      && r.value.decl == f && r.value.definingClass == c && r.value.options == o
      && r.value.associatedObject == associated
      && r.value.value == ReadField(ct, h, c, f, associated)
  {
    if IsPrimitiveClass(f.declaredType) then NewPrimitiveFieldInfo(ct, h, Some(f), Some(c), associated, Some(o))
    else NewNonPrimitiveFieldInfo(ct, h, Some(f), Some(c), associated, Some(o))
  }

  /** What every FieldInfo built from a well-formed heap satisfies. */
  ghost predicate FieldInfoOk(ct: ClassTable, h: Store, fi: FieldInfo)
  {
    && fi.definingClass in ct
    && TypeOk(ct, fi.decl.declaredType)
    && FieldValueOk(h, fi.decl, fi.value)
    && (fi.value.Ref? && h[fi.value.id].ArrayObj? ==> ArrayClosed(h, fi.value.id, {}))
    && (fi.kind.PrimitiveField? <==> IsValueType(fi.decl.declaredType))
  }

  /** A field declared by a loaded class and read from a heap object gives a
      well-formed FieldInfo: the value is in the heap and a value-type field
      holds no reference. */
  lemma GetFieldInfoOk(ct: ClassTable, h: Store, c: ClassId, i: nat, id: ObjId, o: Options)
    requires Wf(ct, h) && c in ct && i < |ct[c].fields| && id in h
    ensures GetFieldInfo(ct, h, ct[c].fields[i], c, Some(id), o).Success?
    ensures FieldInfoOk(ct, h, GetFieldInfo(ct, h, ct[c].fields[i], c, Some(id), o).value)
  {
    assert FieldReadOk(ct, h, c, i, id);
    assert ClassOk(ct, c);
    assert TypeOk(ct, ct[c].fields[i].declaredType);
    var v := ReadField(ct, h, c, ct[c].fields[i], Some(id));
    if v.Ref? {
      ObjectFacts(ct, h, v.id);
    }
  }

  /** The modifier flags a FieldInfo reports (isStatic, isFinal, isVolatile,
      isTransient, isStrict) together with its access level. */
  datatype ModifierFlags = ModifierFlags(
    access: AccessModifier, isStatic: bool, isFinal: bool, isVolatile: bool,
    isTransient: bool, isStrict: bool)

  function Flags(m: bv32): ModifierFlags
  {
    ModifierFlags(GetAccessModifier(m), IsStatic(m), IsFinal(m), IsVolatile(m), IsTransient(m), IsStrict(m))
  }

  function Letter(b: bool, c: char): string
  {
    if b then [c] else ""
  }

  /** 1 for a flag that is set, 0 otherwise. */
  function Count(b: bool): nat
  {
    if b then 1 else 0
  }

  /** The characters of a modifier code for the given flags. */
  function EncodeFlags(f: ModifierFlags): (r: string)
    ensures 1 <= |r| <= 6 && r[0] == f.access.Representation()
  {
    [f.access.Representation()] + Letter(f.isStatic, 't') + Letter(f.isFinal, 'i')
      + Letter(f.isVolatile, 'o') + Letter(f.isTransient, 'r') + Letter(f.isStrict, 'f')
  }

  /** getModifiersRepresentation: the access character, then "t", "i", "o", "r",
      "f" for static, final, volatile, transient and strictfp, in that order. */
  function ModifierCode(m: bv32): (r: string)
    ensures 1 <= |r| <= 6
    ensures |r| == 1 + Count(IsStatic(m)) + Count(IsFinal(m)) + Count(IsVolatile(m))
                     + Count(IsTransient(m)) + Count(IsStrict(m))
    ensures r[0] == GetAccessModifier(m).Representation()
    ensures DecodeModifierCode(r) == Some(Flags(m))
  {
    DecodeEncode(Flags(m));
    EncodeFlags(Flags(m))
  }

  /** getModifiersRepresentation as written: the access character and the five
      optional letters appended one after another to a builder. */
  method GetModifiersRepresentation(m: bv32) returns (rep: string)
    ensures rep == ModifierCode(m)
  {
    var flags := Flags(m);
    var access := flags.access.Representation();
    var isStatic := Letter(flags.isStatic, 't');
    var isFinal := Letter(flags.isFinal, 'i');
    var isVolatile := Letter(flags.isVolatile, 'o');
    var isTransient := Letter(flags.isTransient, 'r');
    var isStrictfp := Letter(flags.isStrict, 'f');
    rep := [access];
    rep := rep + isStatic;
    rep := rep + isFinal;
    rep := rep + isVolatile;
    rep := rep + isTransient;
    rep := rep + isStrictfp;
  }

  /** Consumes an optional flag letter at the front. */
  function TakeLetter(s: string, c: char): (bool, string)
  {
    if |s| > 0 && s[0] == c then (true, s[1..]) else (false, s)
  }

  function AccessOf(c: char): Option<AccessModifier>
  {
    if c == 'i' then Some(Private)
    else if c == 'c' then Some(Package)
    else if c == 'o' then Some(Protected)
    else if c == 'b' then Some(Public)
    else None
  }

  /** Reads a modifier code back: the access character, then each flag letter
      in order; anything left over makes the code invalid. */
  function DecodeModifierCode(s: string): Option<ModifierFlags>
  {
    if |s| == 0 || AccessOf(s[0]).None? then None
    else
      var (st, s1) := TakeLetter(s[1..], 't');
      var (fi, s2) := TakeLetter(s1, 'i');
      var (vo, s3) := TakeLetter(s2, 'o');
      var (tr, s4) := TakeLetter(s3, 'r');
      var (sf, s5) := TakeLetter(s4, 'f');
      if s5 != "" then None else Some(ModifierFlags(AccessOf(s[0]).value, st, fi, vo, tr, sf))
  }

  /** The letter for a flag is read back as that flag, provided the letter
      does not occur in what follows. */
  lemma TakeLetterOf(b: bool, c: char, rest: string)
    requires c !in rest
    ensures TakeLetter(Letter(b, c) + rest, c) == (b, rest)
  {
    if b {
      assert (Letter(b, c) + rest)[1..] == rest;
    } else {
      assert Letter(b, c) + rest == rest;
      assert |rest| == 0 || rest[0] in rest;
    }
  }

  /** The code loses nothing: it decodes back to the access level and all five
      flags. */
  lemma DecodeEncode(f: ModifierFlags)
    ensures DecodeModifierCode(EncodeFlags(f)) == Some(f)
  {
    var r5 := Letter(f.isStrict, 'f');
    var r4 := Letter(f.isTransient, 'r') + r5;
    var r3 := Letter(f.isVolatile, 'o') + r4;
    var r2 := Letter(f.isFinal, 'i') + r3;
    var r1 := Letter(f.isStatic, 't') + r2;
    var a := [f.access.Representation()];
    var code := a + r1;
    var st, fi, vo := Letter(f.isStatic, 't'), Letter(f.isFinal, 'i'), Letter(f.isVolatile, 'o');
    AppendAssoc(a + st + fi + vo, Letter(f.isTransient, 'r'), r5);
    AppendAssoc(a + st + fi, vo, r4);
    AppendAssoc(a + st, fi, r3);
    AppendAssoc(a, st, r2);
    assert EncodeFlags(f) == code;
    assert code[1..] == r1;
    assert 'r' !in r5;
    assert 'o' !in r4;
    assert 'i' !in r3;
    assert 't' !in r2;
    assert AccessOf(code[0]) == Some(f.access);
    TakeLetterOf(f.isStatic, 't', r2);
    TakeLetterOf(f.isFinal, 'i', r3);
    TakeLetterOf(f.isVolatile, 'o', r4);
    TakeLetterOf(f.isTransient, 'r', r5);
    TakeLetterOf(f.isStrict, 'f', "");
    assert r5 + "" == r5;
  }

  /** Two fields share a modifier code exactly when they have the same access
      level and the same five flags. */
  lemma ModifierCodeInjective(m1: bv32, m2: bv32)
    ensures ModifierCode(m1) == ModifierCode(m2) <==> Flags(m1) == Flags(m2)
  {
    assert DecodeModifierCode(ModifierCode(m1)) == Some(Flags(m1));
    assert DecodeModifierCode(ModifierCode(m2)) == Some(Flags(m2));
    if Flags(m1) == Flags(m2) {
      assert ModifierCode(m1) == EncodeFlags(Flags(m1));
    }
  }

  /** getTypeName: the declared type's full or simple name. */
  function FieldTypeName(ct: ClassTable, fi: FieldInfo): string
    requires TypeOk(ct, fi.decl.declaredType)
  {
    TypeName(ct, fi.decl.declaredType, fi.options.fullTypeName)
  }

  /** The name of the defining class in field metadata: canonical or simple. */
  function DefiningClassName(ct: ClassTable, fi: FieldInfo): string
    requires fi.definingClass in ct
  {
    if fi.options.fullTypeName then ct[fi.definingClass].canonicalName else ct[fi.definingClass].simpleName
  }

  /** getMetaStringRepresentation: defining class, modifier code, type name and
      quoted field name, joined by fieldMetaSeparator. */
  function FieldMeta(ct: ClassTable, fi: FieldInfo): (r: string)
    requires fi.definingClass in ct && TypeOk(ct, fi.decl.declaredType)
  {
    var sep := fi.options.fieldMetaSeparator;
    DefiningClassName(ct, fi) + sep + ModifierCode(fi.decl.modifiers) + sep + FieldTypeName(ct, fi)
      + sep + "\"" + fi.decl.name + "\""
  }

  /** The metadata ends with the field's name in double quotes, preceded by the
      separator. */
  lemma FieldMetaEndsWithName(ct: ClassTable, fi: FieldInfo)
    requires fi.definingClass in ct && TypeOk(ct, fi.decl.declaredType)
    ensures var r := FieldMeta(ct, fi);
            var tail := fi.options.fieldMetaSeparator + "\"" + fi.decl.name + "\"";
            |r| >= |tail| && r[|r| - |tail|..] == tail
  {
    var sep := fi.options.fieldMetaSeparator;
    var head := DefiningClassName(ct, fi) + sep + ModifierCode(fi.decl.modifiers) + sep + FieldTypeName(ct, fi);
    var q := "\"";
    var tail := sep + q + fi.decl.name + q;
    AppendAssoc(head + sep, q, fi.decl.name);
    AppendAssoc(head + sep, q + fi.decl.name, q);
    AppendAssoc(head, sep, q + fi.decl.name + q);
    AppendAssoc(sep, q, fi.decl.name);
    AppendAssoc(sep, q + fi.decl.name, q);
    assert FieldMeta(ct, fi) == head + tail;
    SuffixOfAppend(head, tail);
  }

  /** PrimitiveFieldInfo.getValueStringRepresentation: the null representation,
      a String in double quotes, a char or Character in single quotes, or the
      value's toString. */
  function PrimitiveFieldValue(fi: FieldInfo): (r: string)
    requires !fi.value.Ref?
    ensures fi.value.Null? ==> r == fi.options.nullRepresentation
  {
    if fi.value.Null? then fi.options.nullRepresentation
    else if fi.decl.declaredType == StringType then "\"" + fi.value.text + "\""
    else if fi.decl.declaredType == Wrapper(Char) || fi.decl.declaredType == Primitive(Char) then
      "'" + fi.value.text + "'"
    else fi.value.text
  }

  /** The quoting is undone by dropping the first and last character, and only
      String and char fields are quoted. */
  lemma PrimitiveFieldValueUnquotes(fi: FieldInfo)
    requires fi.value.Leaf?
    ensures var r := PrimitiveFieldValue(fi);
            var t := fi.decl.declaredType;
            if t == StringType || t == Wrapper(Char) || t == Primitive(Char) then
              |r| == |fi.value.text| + 2 && r[1..|r| - 1] == fi.value.text
              && r[0] == r[|r| - 1] == (if t == StringType then '"' else '\'')
            else r == fi.value.text
  {
    var r := PrimitiveFieldValue(fi);
    var t := fi.decl.declaredType;
    if t == StringType {
      assert r == "\"" + fi.value.text + "\"";
      assert r[1..|r| - 1] == fi.value.text;
    } else if t == Wrapper(Char) || t == Primitive(Char) {
      assert r == "'" + fi.value.text + "'";
      assert r[1..|r| - 1] == fi.value.text;
    }
  }
}
