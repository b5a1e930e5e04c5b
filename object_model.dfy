/** The abstract heap that stands in for JVM reflection: a class table (class id
    to superclass, declared fields, interface flag, names) and a heap (object id
    to an instance with field slots, or an array with elements). */
module ObjectModel {
  import opened Wrappers
  import opened Modifiers

  /** Class ids are given in loading order; a class's superclass is loaded first. */
  type ClassId = nat
  type ObjId = nat

  datatype PrimKind = Boolean | Byte | Short | Int | Long | Float | Double | Char

  /** A Java type as seen by reflection. `Named` is any class or interface of the
      class table, which includes java.lang.Object and every type that is none of
      the value types (BigDecimal, Instant, Date, ...). */
  datatype Type =
    | Wrapper(kind: PrimKind)
    | Primitive(kind: PrimKind)
    | StringType
    | ArrayOf(component: Type)
    | Named(id: ClassId)

  /** Runtime class of a value-type object: a box or java.lang.String. */
  datatype LeafClass = Boxed(kind: PrimKind) | Str

  /** A value read from a field or an array slot: null, a value-type object with
      its toString text, or a reference to a heap object. */
  datatype Value = Null | Leaf(cls: LeafClass, text: string) | Ref(id: ObjId)

  datatype FieldDecl = FieldDecl(name: string, declaredType: Type, modifiers: bv32)

  /** name, simpleName and canonicalName are the reflective Class.getName,
      getSimpleName and getCanonicalName; fields are getDeclaredFields in order;
      statics hold the values of static fields. */
  datatype ClassInfo = ClassInfo(
    name: string,
    simpleName: string,
    canonicalName: string,
    superclass: Option<ClassId>,
    isInterface: bool,
    fields: seq<FieldDecl>,
    statics: map<string, Value>)

  type ClassTable = map<ClassId, ClassInfo>

  /** An instance keeps one slot per (declaring class, field name), so a shadowed
      base-class field and its redeclaration are separate slots. */
  datatype HeapObject =
    | Instance(cls: ClassId, slots: map<(ClassId, string), Value>)
    | ArrayObj(component: Type, elements: seq<Value>)

  type Store = map<ObjId, HeapObject>

  predicate TypeOk(ct: ClassTable, t: Type)
  {
    match t
    case ArrayOf(c) => TypeOk(ct, c)
    case Named(id) => id in ct
    case _ => true
  }

  function WrapperSimpleName(k: PrimKind): string
  {
    match k
    case Boolean => "Boolean"
    case Byte => "Byte"
    case Short => "Short"
    case Int => "Integer"
    case Long => "Long"
    case Float => "Float"
    case Double => "Double"
    case Char => "Character"
  }

  function PrimitiveName(k: PrimKind): string
  {
    match k
    case Boolean => "boolean"
    case Byte => "byte"
    case Short => "short"
    case Int => "int"
    case Long => "long"
    case Float => "float"
    case Double => "double"
    case Char => "char"
  }

  /** The one-letter field descriptors of section 4.3.2 of The Java Virtual
      Machine Specification. */
  function PrimitiveDescriptor(k: PrimKind): string
  {
    match k
    case Boolean => "Z"
    case Byte => "B"
    case Short => "S"
    case Int => "I"
    case Long => "J"
    case Float => "F"
    case Double => "D"
    case Char => "C"
  }

  /** Class.getName of a type that is not an array. */
  function ClassName(ct: ClassTable, t: Type): string
    requires TypeOk(ct, t) && !t.ArrayOf?
  {
    match t
    case Wrapper(k) => "java.lang." + WrapperSimpleName(k)
    case Primitive(k) => PrimitiveName(k)
    case StringType => "java.lang.String"
    case Named(id) => ct[id].name
  }

  /** The descriptor of a component type, as used in an array class's name. */
  function Descriptor(ct: ClassTable, t: Type): string
    requires TypeOk(ct, t)
  {
    match t
    case Primitive(k) => PrimitiveDescriptor(k)
    case ArrayOf(c) => "[" + Descriptor(ct, c)
    case _ => "L" + ClassName(ct, t) + ";"
  }

  /** Class.getName: "[I", "[Ljava.lang.String;" for arrays. */
  function BinaryName(ct: ClassTable, t: Type): string
    requires TypeOk(ct, t)
  {
    if t.ArrayOf? then "[" + Descriptor(ct, t.component) else ClassName(ct, t)
  }

  /** Class.getSimpleName: "int[]" for arrays. */
  function SimpleName(ct: ClassTable, t: Type): string
    requires TypeOk(ct, t)
  {
    match t
    case Wrapper(k) => WrapperSimpleName(k)
    case Primitive(k) => PrimitiveName(k)
    case StringType => "String"
    case ArrayOf(c) => SimpleName(ct, c) + "[]"
    case Named(id) => ct[id].simpleName
  }

  /** The type name shown in metadata: full (getName) or simple. */
  function TypeName(ct: ClassTable, t: Type, full: bool): string
    requires TypeOk(ct, t)
  {
    if full then BinaryName(ct, t) else SimpleName(ct, t)
  }

  /** The toString text of a field's default value (0, false, '\u0000', 0.0). */
  function DefaultText(k: PrimKind): string
  {
    match k
    case Boolean => "false"
    case Char => [0 as char]
    case Float => "0.0"
    case Double => "0.0"
    case _ => "0"
  }

  /** What Field.get returns for a field that was never assigned: a boxed zero
      for a primitive type, null otherwise. */
  function DefaultValue(t: Type): (v: Value)
    ensures !v.Ref?
    ensures v.Null? <==> !t.Primitive?
  {
    if t.Primitive? then Leaf(Boxed(t.kind), DefaultText(t.kind)) else Null
  }

  /** Field.get(associatedObject), with the access check overridden: a static
      field comes from its class, an instance field from the object's slot. A
      missing slot or static value stands for a field that was never assigned.
      A read that fails leaves FieldInfo's value null whatever the declared
      type; a Null slot expresses that (see FailedReadIsNull). */
  function ReadField(ct: ClassTable, h: Store, c: ClassId, f: FieldDecl, associated: Option<ObjId>): Value
  {
    if IsStatic(f.modifiers) then
      if c in ct && f.name in ct[c].statics then ct[c].statics[f.name] else DefaultValue(f.declaredType)
    else if associated.Some? && associated.value in h && h[associated.value].Instance?
            && (c, f.name) in h[associated.value].slots then
      h[associated.value].slots[(c, f.name)]
    else
      DefaultValue(f.declaredType)
  }

  /** A Null slot gives a null field value for every declared type, the
      primitive ones included, and such a value respects the declaration. */
  lemma FailedReadIsNull(ct: ClassTable, h: Store, c: ClassId, f: FieldDecl, id: ObjId)
    requires !IsStatic(f.modifiers) && id in h && h[id].Instance?
    requires (c, f.name) in h[id].slots && h[id].slots[(c, f.name)].Null?
    ensures ReadField(ct, h, c, f, Some(id)) == Null
    ensures FieldValueOk(h, f, Null)
  {
  }

  /** References point into the heap. */
  predicate ValueOk(h: Store, v: Value)
  {
    v.Ref? ==> v.id in h
  }

  /** A class's superclass is in the table and was loaded before it; declared
      field types name classes of the table. */
  predicate TableOk(ct: ClassTable)
  {
    forall c {:trigger ClassOk(ct, c)} | c in ct :: ClassOk(ct, c)
  }

  predicate ClassOk(ct: ClassTable, c: ClassId)
    requires c in ct
  {
    && (ct[c].superclass.Some? ==> ct[c].superclass.value < c && ct[c].superclass.value in ct)
    && (forall i | 0 <= i < |ct[c].fields| :: TypeOk(ct, ct[c].fields[i].declaredType))
  }

  /** Array `a` is in the heap, its elements point into the heap, and it does
      not reach itself, or any array in `seen`, through array elements alone. */
  ghost predicate ArrayClosed(h: Store, a: ObjId, seen: set<ObjId>)
    decreases |h.Keys - seen|, 1
  {
    && a in h && h[a].ArrayObj? && a !in seen
    && forall i: nat {:trigger ElementClosed(h, a, seen, i)} | i < |h[a].elements| :: ElementClosed(h, a, seen, i)
  }

  /** Element i of array a points into the heap and, if it is an array, is
      closed with a added to the arrays it must not reach. */
  ghost predicate ElementClosed(h: Store, a: ObjId, seen: set<ObjId>, i: nat)
    requires a in h && h[a].ArrayObj? && a !in seen && i < |h[a].elements|
    decreases |h.Keys - seen|, 0
  {
    var e := h[a].elements[i];
    e.Ref? ==> e.id in h && (h[e.id].ArrayObj? ==>
      assert |h.Keys - (seen + {a})| < |h.Keys - seen| by {
        assert a in h.Keys - seen && a !in h.Keys - (seen + {a});
        assert h.Keys - seen == (h.Keys - (seen + {a})) + {a};
      }
      ArrayClosed(h, e.id, seen + {a}))
  }

  /** The value a field of the given declaration may hold: a reference into the
      heap, and never a reference when the declared type is a value type. */
  predicate FieldValueOk(h: Store, f: FieldDecl, v: Value)
  {
    ValueOk(h, v) && (IsValueType(f.declaredType) ==> !v.Ref?)
  }

  /** The seventeen classes isPrimitive(Class) accepts: eight boxes, String and
      the eight primitive types. */
  predicate IsValueType(t: Type)
  {
    t.Wrapper? || t.Primitive? || t.StringType?
  }

  /** What the JVM guarantees of every object: its class is a loaded, concrete
      class; an array's component is a loaded type, and its elements point into
      the heap without the array containing itself through elements alone. */
  ghost predicate ObjectOk(ct: ClassTable, h: Store, id: ObjId)
    requires id in h
  {
    match h[id]
    case Instance(c, _) => c in ct && !ct[c].isInterface
    case ArrayObj(comp, _) => TypeOk(ct, comp) && ArrayClosed(h, id, {})
  }

  ghost predicate HeapOk(ct: ClassTable, h: Store)
  {
    forall id {:trigger ObjectOk(ct, h, id)} | id in h :: ObjectOk(ct, h, id)
  }

  lemma ObjectFacts(ct: ClassTable, h: Store, id: ObjId)
    requires HeapOk(ct, h) && id in h
    ensures h[id].Instance? ==> h[id].cls in ct && !ct[h[id].cls].isInterface
    ensures h[id].ArrayObj? ==> TypeOk(ct, h[id].component) && ArrayClosed(h, id, {})
  {
    assert ObjectOk(ct, h, id);
  }

  /** A field value read from an object respects the field's declaration. */
  ghost predicate FieldReadOk(ct: ClassTable, h: Store, c: ClassId, i: nat, id: ObjId)
    requires c in ct && i < |ct[c].fields|
  {
    FieldValueOk(h, ct[c].fields[i], ReadField(ct, h, c, ct[c].fields[i], Some(id)))
  }

  /** Every field value read from an object respects the field's declaration. */
  ghost predicate ReadsOk(ct: ClassTable, h: Store)
  {
    forall c, i: nat, id {:trigger FieldReadOk(ct, h, c, i, id)} | c in ct && i < |ct[c].fields| && id in h ::
      FieldReadOk(ct, h, c, i, id)
  }

  ghost predicate Wf(ct: ClassTable, h: Store)
  {
    TableOk(ct) && HeapOk(ct, h) && ReadsOk(ct, h)
  }
}
