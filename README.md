# java_object_reader in Dafny

A model of the rendering engine of java_object_reader, a reflection-based
printer that turns any Java object graph into an indented, human-readable
string. `ObjectReader.read` classifies a value as null, array, value type
(the eight boxes and String) or composite object. It renders a composite
object as its fields in name order, and each field as its declaring class,
a compact modifier code, its declared type and its name. A
`CircularReferencePrevention` tracker cuts off references back to an
object still being rendered.

Java reflection is replaced by an abstract heap:

- a class table maps a class id to its names, an optional superclass, an
  interface flag, its declared fields (name, declared type, modifier bits)
  and the values of its static fields;
- a store maps an object id to an instance (class, one slot per declaring
  class and field name) or an array (component type, elements);
- a value is null, a value-type object `Leaf(class, toString text)`, or a
  reference to a heap object.

A superclass is loaded before its subclasses, so the superclass id is
smaller than the class id.

Modules, in dependency order:

| module | file | models |
|---|---|---|
| Wrappers | wrappers.dfy | Option, Result and the two exception kinds thrown |
| Modifiers | modifiers.dfy | `java.lang.reflect.Modifier` bits and `AccessModifier.java` |
| ObjectModel | object_model.dfy | class table, heap, values, `Field.get`, well-formedness |
| Utils | utils.dfy | `StringRepresentableUtils.java` |
| Strings | strings.dfy | StringBuilder repetition, StringJoiner, `String.compareTo` order |
| RepresentationOptions | options.dfy | `StringRepresentationOptions.java` and its `Builder` (a class) |
| Fields | fields.dfy | `FieldInfo.java`, `PrimitiveFieldInfo.java`, `NonPrimitiveFieldInfo.java` construction and formatting |
| SortedMap | sorted_map.dfy | the name-keyed `TreeMap` of a composite object |
| ObjectInfos | object_infos.dfy | `ObjectInfo.java` and its three subclasses' construction, field shadowing |
| Representation | representation.dfy | the string representations, as functions of the tracked set |
| Tracking | tracker.dfy | `CircularReferencePrevention.java` (a class over a set of object ids) |
| Rendering | rendering.dfy | the imperative loops: field-map construction, joiners, tracker add and remove |
| Reader | object_reader.dfy | `ObjectReader.java` |

The representation is specified twice, once per form of the source.

- Representation is the specification: recursive functions (`Render`,
  `FullString`, `ValueString`, `FieldLine`, ...). Each takes the tracker's
  contents as a parameter.
- Rendering is the implementation: methods that mutate one
  shared `Tracking.Tracker` object, as the Java code does. Each of them
  proves that its result equals the corresponding function on the tracker's
  contents at entry, and that the tracker holds the same contents on exit.

Termination of the recursion is proved by a decreasing measure, in this order:
1. the number of heap objects not yet tracked;
2. a rank: arrays above composite objects, composite objects above values;
3. the call depth within one object.

Cycles through fields terminate because every descent into a field value
tracks one more object. The measure needs the one well-formedness condition
the source does not guarantee: no array may reach itself through array
elements alone (`ObjectModel.ArrayClosed`).

Points where the code's behaviour is easy to misread; the model follows the code:

- Every non-null field value is added to the tracker, an array held by a field or a
  boxed value just as a composite object (`NonPrimitiveObjectInfo.java:93-98`).
  Value objects carry no identity in the model, and nothing is checked while one is
  tracked, so leaving them out of the tracked set changes no output.
- An empty array renders as `[`, two line breaks, the indents and `]`, because the
  joiner's prefix and suffix are both written (`ArrayObjectInfo.java:30`).
- Array elements are separated by a literal `",\n"`, not by `newLine`
  (`ArrayObjectInfo.java:30`). The opening `"{\n"` and the `"\n"` before a closing
  brace are literal too (`NonPrimitiveObjectInfo.java:82,107`).
- `getObjectInfo` rejects a null options argument and a null tracker
  (`ObjectInfo.java:99-100`). `read` always passes a fresh tracker, so only a null
  options argument makes it fail.
- The root object is never added to the tracker (`ObjectReader.java:28-29`). An
  object with a field referring to itself is therefore written out twice before
  the placeholder appears.
- `checkExists` runs before the null test (`NonPrimitiveObjectInfo.java:88-89`).
  null is never tracked, so the model tests membership only for references.

## Model

| member | source | states |
|---|---|---|
| Modifiers.AccessModifier.Representation | src/main/java/io/github/zessi/utils/java_object_reader/java_object_reader/AccessModifier.java:10-13 | each access level has one of the four characters i, c, o, b |
| Modifiers.RepresentationInjective | src/main/java/io/github/zessi/utils/java_object_reader/java_object_reader/AccessModifier.java:10-13 | two access levels have the same character exactly when they are the same level |
| Modifiers.GetAccessModifier | src/main/java/io/github/zessi/utils/java_object_reader/java_object_reader/AccessModifier.java:42-48 | PUBLIC exactly when the public bit is set; PROTECTED when protected is set and public is not; PRIVATE when only the private bit of the three is set; PACKAGE exactly when none of the three is set |
| Modifiers.AccessOfSingleBit | src/main/java/io/github/zessi/utils/java_object_reader/java_object_reader/AccessModifier.java:43-45 | with exactly one access bit set, that bit's level is returned |
| Modifiers.AccessIgnoresOtherBits | src/main/java/io/github/zessi/utils/java_object_reader/java_object_reader/AccessModifier.java:42-48 | bits other than public, private and protected do not change the access level |
| ObjectModel.DefaultValue | src/main/java/io/github/zessi/utils/java_object_reader/java_object_reader/FieldInfo.java:127-136 | what Field.get returns for a field never assigned: a boxed zero for a primitive declared type and null for any other type, never a reference |
| ObjectModel.ReadField | src/main/java/io/github/zessi/utils/java_object_reader/java_object_reader/FieldInfo.java:127-136 | definition, no contract of its own: a static field is read from its class and an instance field from the object slot of its declaring class; a missing slot or static value gives DefaultValue |
| ObjectModel.FailedReadIsNull | src/main/java/io/github/zessi/utils/java_object_reader/java_object_reader/FieldInfo.java:132-134 | a failed read leaves the value null for every declared type: a Null slot reads as null, and null respects any declaration |
| Utils.RuntimeType | src/main/java/io/github/zessi/utils/java_object_reader/java_object_reader/ObjectInfo.java:38-42 | getClass of a non-null value: a class or array type exactly for heap objects; for a value object its wrapper class, or String, and never a primitive type |
| Utils.IsPrimitiveClass | src/main/java/io/github/zessi/utils/java_object_reader/java_object_reader/StringRepresentableUtils.java:38-58 | true exactly for the eight boxes, the eight primitive types and String; never for an array or another class |
| Utils.IsPrimitiveObject | src/main/java/io/github/zessi/utils/java_object_reader/java_object_reader/StringRepresentableUtils.java:16-30 | fails exactly on null; otherwise true exactly for a boxed primitive or a String |
| Utils.PrimitiveObjectMatchesClass | src/test/java/io/github/zessi/utils/java_object_reader/java_object_reader/Test_StringRepresentableUtils.java:21-124 | the object test agrees with the class test applied to the runtime class |
| Utils.IsArray | src/main/java/io/github/zessi/utils/java_object_reader/java_object_reader/StringRepresentableUtils.java:66-68 | true exactly when the runtime class is an array class |
| Utils.Reverse | src/main/java/io/github/zessi/utils/java_object_reader/java_object_reader/StringRepresentableUtils.java:89 | Collections.reverse: same length, element i is element i counted from the end of the input |
| Utils.Ancestry | src/main/java/io/github/zessi/utils/java_object_reader/java_object_reader/StringRepresentableUtils.java:80-92 | the chain ends at the class itself, starts at a class without superclass, and each element is the superclass of the next |
| Utils.AncestryAscending | src/main/java/io/github/zessi/utils/java_object_reader/java_object_reader/StringRepresentableUtils.java:84-92 | the chain has no repeated class, so the LinkedHashSet keeps every element in order |
| Utils.AncestryUnique | src/test/java/io/github/zessi/utils/java_object_reader/java_object_reader/Test_StringRepresentableUtils.java:127-158 | any sequence from a root class that links each class to its superclass and ends at c is the chain of c |
| Utils.GetParticipatingClasses | src/main/java/io/github/zessi/utils/java_object_reader/java_object_reader/StringRepresentableUtils.java:76-93 | fails exactly for an interface; otherwise the loop and reverse return the root-first chain Ancestry |
| Strings.RepeatLength | src/main/java/io/github/zessi/utils/java_object_reader/java_object_reader/StringRepresentationOptions.java:104-110 | n appends of s give a string of n times its length |
| Strings.RepeatFront | src/main/java/io/github/zessi/utils/java_object_reader/java_object_reader/StringRepresentationOptions.java:104-110 | one more copy of the indent may be put at the front or the back |
| Strings.JoinLength | src/main/java/io/github/zessi/utils/java_object_reader/java_object_reader/NonPrimitiveObjectInfo.java:85-104 | a StringJoiner holds the parts plus one separator between neighbours |
| Strings.JoinStartsWithFirst | src/main/java/io/github/zessi/utils/java_object_reader/java_object_reader/ArrayObjectInfo.java:30-38 | the joined text starts with its first part |
| Strings.LessIrreflexive | src/main/java/io/github/zessi/utils/java_object_reader/java_object_reader/NonPrimitiveObjectInfo.java:17 | no name sorts before itself in String.compareTo order |
| Strings.LessAsymmetric | src/main/java/io/github/zessi/utils/java_object_reader/java_object_reader/NonPrimitiveObjectInfo.java:17 | compareTo order is asymmetric |
| Strings.LessTransitive | src/main/java/io/github/zessi/utils/java_object_reader/java_object_reader/NonPrimitiveObjectInfo.java:17 | compareTo order is transitive |
| Strings.LessTotal | src/main/java/io/github/zessi/utils/java_object_reader/java_object_reader/NonPrimitiveObjectInfo.java:17 | two distinct names are ordered one way or the other |
| RepresentationOptions.GetIndents | src/main/java/io/github/zessi/utils/java_object_reader/java_object_reader/StringRepresentationOptions.java:104-110 | the builder loop yields indent repeated indentCount times, empty for a count of zero or less, of length count times the length of indent |
| RepresentationOptions.Indents | src/main/java/io/github/zessi/utils/java_object_reader/java_object_reader/StringRepresentationOptions.java:104-110 | definition, no contract of its own: indent repeated indentCount times, nothing for a count of zero or less; GetIndents is proved equal to it |
| RepresentationOptions.Increment | src/main/java/io/github/zessi/utils/java_object_reader/java_object_reader/StringRepresentationOptions.java:143-145 | Java int increment: plus one modulo 2^32, exactly plus one below the maximum |
| RepresentationOptions.CloneAndAddIndent | src/main/java/io/github/zessi/utils/java_object_reader/java_object_reader/StringRepresentationOptions.java:143-145 | indentCount is incremented and every other attribute copied unchanged |
| RepresentationOptions.AddIndentAppendsIndent | src/main/java/io/github/zessi/utils/java_object_reader/java_object_reader/StringRepresentationOptions.java:104-145 | for 0 <= indentCount < MAX, the clone's indents are the original indents plus one indent |
| RepresentationOptions.AddIndentWrapsAtMax | src/main/java/io/github/zessi/utils/java_object_reader/java_object_reader/StringRepresentationOptions.java:143-145 | at indentCount == Integer.MAX_VALUE the clone wraps to MIN_VALUE and its indents become empty |
| RepresentationOptions.Builder.Build | src/main/java/io/github/zessi/utils/java_object_reader/java_object_reader/StringRepresentationOptions.java:157-164 | a new builder holds false, "=", ":", tab, a vertical bar, newline, 0 and "<null>" |
| RepresentationOptions.Builder.Get | src/main/java/io/github/zessi/utils/java_object_reader/java_object_reader/StringRepresentationOptions.java:330-332 | every attribute of the returned options equals the builder's current attribute |
| RepresentationOptions.Builder.SetFullTypeName | src/main/java/io/github/zessi/utils/java_object_reader/java_object_reader/StringRepresentationOptions.java:194-197 | changes only fullTypeName and returns the same builder |
| RepresentationOptions.Builder.SetFieldMetaValueSeparator | src/main/java/io/github/zessi/utils/java_object_reader/java_object_reader/StringRepresentationOptions.java:212-215 | changes only fieldMetaValueSeparator and returns the same builder |
| RepresentationOptions.Builder.SetObjectMetaValueSeparator | src/main/java/io/github/zessi/utils/java_object_reader/java_object_reader/StringRepresentationOptions.java:230-233 | changes only objectMetaValueSeparator and returns the same builder |
| RepresentationOptions.Builder.SetIndent | src/main/java/io/github/zessi/utils/java_object_reader/java_object_reader/StringRepresentationOptions.java:248-251 | changes only indent and returns the same builder |
| RepresentationOptions.Builder.SetFieldMetaSeparator | src/main/java/io/github/zessi/utils/java_object_reader/java_object_reader/StringRepresentationOptions.java:266-269 | changes only fieldMetaSeparator and returns the same builder |
| RepresentationOptions.Builder.SetNewLine | src/main/java/io/github/zessi/utils/java_object_reader/java_object_reader/StringRepresentationOptions.java:284-287 | changes only newLine and returns the same builder |
| RepresentationOptions.Builder.SetIndentCount | src/main/java/io/github/zessi/utils/java_object_reader/java_object_reader/StringRepresentationOptions.java:302-305 | changes only indentCount and returns the same builder |
| RepresentationOptions.Builder.SetNullRepresentation | src/main/java/io/github/zessi/utils/java_object_reader/java_object_reader/StringRepresentationOptions.java:320-323 | changes only nullRepresentation and returns the same builder |
| RepresentationOptions.BuildWithFullTypeName | src/main/java/io/github/zessi/utils/java_object_reader/java_object_reader/StringRepresentationOptions.java:177-197 | build().setFullTypeName(b).get() is the default options with fullTypeName b |
| RepresentationOptions.DefaultOptions | src/main/java/io/github/zessi/utils/java_object_reader/java_object_reader/StringRepresentationOptions.java:157-164 | definition, no contract of its own: the eight defaults; Builder.Build and Reader.GetDefaultOptions are proved to give it |
| Fields.ConstructFieldInfo | src/main/java/io/github/zessi/utils/java_object_reader/java_object_reader/FieldInfo.java:110-137 | the four checks in source order, each with its own message and the earlier check winning; succeeds exactly with a field, a defining class, options, and an object unless the field is static; the result keeps its arguments and the value read from the field |
| Fields.NewPrimitiveFieldInfo | src/main/java/io/github/zessi/utils/java_object_reader/java_object_reader/PrimitiveFieldInfo.java:19-22 | succeeds exactly when the base constructor does and the declared type is a value type |
| Fields.NewNonPrimitiveFieldInfo | src/main/java/io/github/zessi/utils/java_object_reader/java_object_reader/NonPrimitiveFieldInfo.java:23-27 | succeeds exactly when the base constructor does and the declared type is not a value type |
| Fields.GetFieldInfo | src/main/java/io/github/zessi/utils/java_object_reader/java_object_reader/FieldInfo.java:360-363 | the primitive kind exactly for a value-type declared type; fails only for an instance field without an object; keeps field, class, object, options and read value |
| Fields.GetFieldInfoOk | src/main/java/io/github/zessi/utils/java_object_reader/java_object_reader/NonPrimitiveObjectInfo.java:49-53 | a declared field read from a heap object always gives a FieldInfo whose value respects the declared type |
| Fields.EncodeFlags | src/main/java/io/github/zessi/utils/java_object_reader/java_object_reader/FieldInfo.java:331-349 | the code has 1 to 6 characters and starts with the access character |
| Fields.ModifierCode | src/main/java/io/github/zessi/utils/java_object_reader/java_object_reader/FieldInfo.java:331-349 | exactly one character plus one per flag set among static, final, volatile, transient and strictfp (so 1 to 6), the first the access character, and it decodes back to the access level and the five flags |
| Fields.GetModifiersRepresentation | src/main/java/io/github/zessi/utils/java_object_reader/java_object_reader/FieldInfo.java:331-349 | the step-by-step builder appends give ModifierCode |
| Fields.DecodeEncode | src/main/java/io/github/zessi/utils/java_object_reader/java_object_reader/FieldInfo.java:319-324 | a modifier code decodes to exactly the flags it was built from |
| Fields.ModifierCodeInjective | src/main/java/io/github/zessi/utils/java_object_reader/java_object_reader/FieldInfo.java:319-324 | two fields share a code exactly when access level and all five flags agree |
| Fields.FieldMeta | src/main/java/io/github/zessi/utils/java_object_reader/java_object_reader/FieldInfo.java:186-189 | definition, no contract of its own: defining class name, modifier code, declared type name and quoted field name, joined by fieldMetaSeparator |
| Fields.FieldMetaEndsWithName | src/main/java/io/github/zessi/utils/java_object_reader/java_object_reader/FieldInfo.java:186-189 | the field metadata ends with the separator and the field name in double quotes |
| Fields.PrimitiveFieldValue | src/main/java/io/github/zessi/utils/java_object_reader/java_object_reader/PrimitiveFieldInfo.java:29 | a null value is shown as the null representation |
| Fields.PrimitiveFieldValueUnquotes | src/main/java/io/github/zessi/utils/java_object_reader/java_object_reader/PrimitiveFieldInfo.java:28-33 | a String-declared field is the text in double quotes, a char or Character field the text in single quotes, any other the bare text; quoting follows the declared type |
| SortedMap.Get | src/main/java/io/github/zessi/utils/java_object_reader/java_object_reader/NonPrimitiveObjectInfo.java:17 | TreeMap.get finds a value exactly for a key of the map |
| SortedMap.Put | src/main/java/io/github/zessi/utils/java_object_reader/java_object_reader/NonPrimitiveObjectInfo.java:52 | TreeMap.put keeps the keys sorted, adds the key, maps it to the new value and leaves every other key's value unchanged |
| SortedMap.PutGet | src/main/java/io/github/zessi/utils/java_object_reader/java_object_reader/NonPrimitiveObjectInfo.java:52 | after a put, the new key maps to the new value and other keys as before |
| SortedMap.PutEntries | src/main/java/io/github/zessi/utils/java_object_reader/java_object_reader/NonPrimitiveObjectInfo.java:52 | a put adds no entry other than the new one |
| SortedMap.PutSize | src/main/java/io/github/zessi/utils/java_object_reader/java_object_reader/NonPrimitiveObjectInfo.java:52 | a put grows the map by one exactly when the key is new |
| SortedMap.SortedSize | src/main/java/io/github/zessi/utils/java_object_reader/java_object_reader/NonPrimitiveObjectInfo.java:17 | a sorted map has one entry per distinct key |
| SortedMap.GetAt | src/main/java/io/github/zessi/utils/java_object_reader/java_object_reader/NonPrimitiveObjectInfo.java:86 | looking up the key of the i-th entry in iteration order finds that entry |
| ObjectInfos.LastDecl | src/main/java/io/github/zessi/utils/java_object_reader/java_object_reader/NonPrimitiveObjectInfo.java:50-53 | the declaration of a name among a class's declared fields, None exactly when no field has that name |
| ObjectInfos.DeclaringIndex | src/main/java/io/github/zessi/utils/java_object_reader/java_object_reader/NonPrimitiveObjectInfo.java:41-54 | the position of the lowest class in the chain declaring the name, no lower class declaring it; None exactly when no class does |
| ObjectInfos.PutDecls | src/main/java/io/github/zessi/utils/java_object_reader/java_object_reader/NonPrimitiveObjectInfo.java:50-53 | the inner loop keeps the map sorted by name |
| ObjectInfos.PutClasses | src/main/java/io/github/zessi/utils/java_object_reader/java_object_reader/NonPrimitiveObjectInfo.java:49-54 | the outer loop keeps the map sorted by name |
| ObjectInfos.FieldMapOf | src/main/java/io/github/zessi/utils/java_object_reader/java_object_reader/NonPrimitiveObjectInfo.java:41-54 | the field map of an instance is sorted by name |
| ObjectInfos.PutDeclsOk | src/main/java/io/github/zessi/utils/java_object_reader/java_object_reader/NonPrimitiveObjectInfo.java:50-53 | every FieldInfo put by the inner loop is well formed |
| ObjectInfos.PutOk | src/main/java/io/github/zessi/utils/java_object_reader/java_object_reader/NonPrimitiveObjectInfo.java:52 | putting a well-formed FieldInfo keeps a map of well-formed entries |
| ObjectInfos.PutClassesOk | src/main/java/io/github/zessi/utils/java_object_reader/java_object_reader/NonPrimitiveObjectInfo.java:49-54 | every entry left by the outer loop is well formed |
| ObjectInfos.PutClassesNone | src/main/java/io/github/zessi/utils/java_object_reader/java_object_reader/NonPrimitiveObjectInfo.java:49-54 | classes that declare no fields leave the map unchanged |
| ObjectInfos.FieldMapOk | src/main/java/io/github/zessi/utils/java_object_reader/java_object_reader/NonPrimitiveObjectInfo.java:41-54 | every entry of an instance's field map is a well-formed FieldInfo |
| ObjectInfos.PutDeclsGet | src/main/java/io/github/zessi/utils/java_object_reader/java_object_reader/NonPrimitiveObjectInfo.java:50-53 | after the inner loop a name maps to the FieldInfo of the class's declaration of it, or to what it mapped to before |
| ObjectInfos.PutClassesGet | src/main/java/io/github/zessi/utils/java_object_reader/java_object_reader/NonPrimitiveObjectInfo.java:49-54 | after the outer loop a name maps to the FieldInfo from the last declaring class, or to its old value |
| ObjectInfos.FieldMapShadowing | src/main/java/io/github/zessi/utils/java_object_reader/java_object_reader/NonPrimitiveObjectInfo.java:41-54 | the map has an entry exactly for the names declared along the chain; each entry is the declaration of the lowest declaring class, with that class as defining class, the object as associated object, the value read from it, and options one indent deeper |
| ObjectInfos.NewArrayInfo | src/main/java/io/github/zessi/utils/java_object_reader/java_object_reader/ArrayObjectInfo.java:19-23 | succeeds exactly with options and an array object |
| ObjectInfos.NewPrimitiveInfo | src/main/java/io/github/zessi/utils/java_object_reader/java_object_reader/PrimitiveObjectInfo.java:15-18 | succeeds exactly with options and a boxed primitive or String |
| ObjectInfos.NewCompositeInfo | src/main/java/io/github/zessi/utils/java_object_reader/java_object_reader/NonPrimitiveObjectInfo.java:31-55 | succeeds exactly with options and a heap object; the info holds that object, a well-formed field map, and no fields for an array |
| ObjectInfos.Classify | src/main/java/io/github/zessi/utils/java_object_reader/java_object_reader/ObjectInfo.java:102-124 | null info exactly for null, array info exactly for arrays, primitive info exactly for values, composite info exactly for instances, whose fields are FieldMapOf; options and object are kept |
| Representation.ObjectMeta | src/main/java/io/github/zessi/utils/java_object_reader/java_object_reader/ObjectInfo.java:71-81 | definition, no contract of its own: the runtime class name, full or simple as fullTypeName says |
| Representation.Render | src/main/java/io/github/zessi/utils/java_object_reader/java_object_reader/ObjectInfo.java:98-125 | definition, no contract of its own: getObjectInfo (Classify) followed by getFullStringRepresentation; RenderNull, RenderLeaf, RenderEmptyArray and RenderNoFields state its cases |
| Representation.FullString | src/main/java/io/github/zessi/utils/java_object_reader/java_object_reader/StringRepresentable.java:26-28 | definition, no contract of its own: nullRepresentation for null (ObjectInfo.java lines 108-111), otherwise metadata, objectMetaValueSeparator and value string; Rendering.FullStringOf is proved equal to it |
| Representation.ValueString | src/main/java/io/github/zessi/utils/java_object_reader/java_object_reader/ArrayObjectInfo.java:29-39 | definition, no contract of its own: the array joiner shown here, the quoted forms of PrimitiveObjectInfo lines 24-28 and the braced field join of NonPrimitiveObjectInfo lines 77-109; ValueStringCloses states how each ends |
| Representation.FieldLine | src/main/java/io/github/zessi/utils/java_object_reader/java_object_reader/NonPrimitiveObjectInfo.java:88-103 | definition, no contract of its own: placeholder for a tracked object, null line for null, otherwise the full representation with the object tracked; FieldLinePlaceholder, TrackedFieldLine, UntrackedFieldLine and NullFieldLineCoherent state it |
| Representation.FieldFull | src/main/java/io/github/zessi/utils/java_object_reader/java_object_reader/FieldInfo.java:186-197 | definition, no contract of its own: field metadata, fieldMetaValueSeparator and the field value string |
| Representation.FieldValue | src/main/java/io/github/zessi/utils/java_object_reader/java_object_reader/NonPrimitiveFieldInfo.java:33-35 | definition, no contract of its own: the literal of PrimitiveFieldInfo for a value-type field, otherwise the value rendered with the same tracker and the field options |
| Representation.ElementLines | src/main/java/io/github/zessi/utils/java_object_reader/java_object_reader/ArrayObjectInfo.java:32-37 | one line per element |
| Representation.FieldLines | src/main/java/io/github/zessi/utils/java_object_reader/java_object_reader/NonPrimitiveObjectInfo.java:86-104 | one line per field of the map |
| Representation.FieldLinesPointwise | src/main/java/io/github/zessi/utils/java_object_reader/java_object_reader/NonPrimitiveObjectInfo.java:86-104 | every field line is computed from the same tracked set, so a field's line depends on that field alone and a shared object is written out in full under each sibling field |
| Representation.FieldLinesAt | src/main/java/io/github/zessi/utils/java_object_reader/java_object_reader/NonPrimitiveObjectInfo.java:86-104 | line i is the line of the i-th field in name order |
| Representation.ElementLinesStep | src/main/java/io/github/zessi/utils/java_object_reader/java_object_reader/ArrayObjectInfo.java:32-37 | the lines of i+1 elements extend those of i elements by element i's indents and full representation |
| Representation.ElementLinesPointwise | src/main/java/io/github/zessi/utils/java_object_reader/java_object_reader/ArrayObjectInfo.java:29-39 | line i is the deeper indents plus element i rendered with the array's own tracked set; arrays neither check nor change the tracker |
| Representation.ElementLinesAt | src/main/java/io/github/zessi/utils/java_object_reader/java_object_reader/ArrayObjectInfo.java:35-36 | line i of the element lines is the line of element i |
| Representation.ValueStringCloses | src/main/java/io/github/zessi/utils/java_object_reader/java_object_reader/ArrayObjectInfo.java:30 | an array value ends with ] and a composite value with } |
| Representation.RenderRefCloses | src/main/java/io/github/zessi/utils/java_object_reader/java_object_reader/StringRepresentable.java:26-28 | the full representation of a heap object ends with its value's closing bracket |
| Representation.FieldLinePlaceholder | src/main/java/io/github/zessi/utils/java_object_reader/java_object_reader/NonPrimitiveObjectInfo.java:88-102 | a field holding a heap object ends with <Object Processing> exactly when that object is tracked |
| Representation.TrackedFieldLine | src/main/java/io/github/zessi/utils/java_object_reader/java_object_reader/NonPrimitiveObjectInfo.java:100-102 | a tracked field value gives indents, metadata, separator and the placeholder, without recursion |
| Representation.UntrackedFieldLine | src/main/java/io/github/zessi/utils/java_object_reader/java_object_reader/NonPrimitiveObjectInfo.java:93-98 | an untracked heap object is rendered in full with itself added to the tracked set |
| Representation.RenderNull | src/main/java/io/github/zessi/utils/java_object_reader/java_object_reader/ObjectInfo.java:102-112 | null renders as exactly the null representation, whatever is tracked |
| Representation.RenderLeaf | src/main/java/io/github/zessi/utils/java_object_reader/java_object_reader/PrimitiveObjectInfo.java:24-28 | a value object renders as type name, object separator and {"s"} for a String, {'c'} for a Character, {text} otherwise |
| Representation.RenderEmptyArray | src/main/java/io/github/zessi/utils/java_object_reader/java_object_reader/ArrayObjectInfo.java:30 | an empty array renders as type name, separator, "[", two line breaks, indents and "]" |
| Representation.RenderNoFields | src/main/java/io/github/zessi/utils/java_object_reader/java_object_reader/NonPrimitiveObjectInfo.java:78 | an object whose classes declare no fields renders its value as exactly {} |
| Representation.NullElementLine | src/main/java/io/github/zessi/utils/java_object_reader/java_object_reader/ArrayObjectInfo.java:35-36 | a null element's line is the deeper indents and the null representation |
| Representation.ObjectFieldHoldingLeaf | src/main/java/io/github/zessi/utils/java_object_reader/java_object_reader/NonPrimitiveFieldInfo.java:33-35 | a value object in a field of non-value declared type is shown in the braced object form with its runtime type name |
| Representation.NullFieldLineCoherent | src/main/java/io/github/zessi/utils/java_object_reader/java_object_reader/NonPrimitiveObjectInfo.java:89-91 | the null line written directly equals the line the general field path would give |
| Tracking.Tracker.constructor | src/main/java/io/github/zessi/utils/java_object_reader/java_object_reader/CircularReferencePrevention.java:41 | a new tracker is empty |
| Tracking.Tracker.CheckExists | src/main/java/io/github/zessi/utils/java_object_reader/java_object_reader/CircularReferencePrevention.java:49-55 | the scan finds x exactly when x is tracked |
| Tracking.Tracker.Add | src/main/java/io/github/zessi/utils/java_object_reader/java_object_reader/CircularReferencePrevention.java:71-73 | contents gain x and nothing else changes |
| Tracking.Tracker.Remove | src/main/java/io/github/zessi/utils/java_object_reader/java_object_reader/CircularReferencePrevention.java:80-82 | contents lose x and nothing else changes |
| Tracking.Tracker.AddAll | src/main/java/io/github/zessi/utils/java_object_reader/java_object_reader/CircularReferencePrevention.java:62-64 | contents gain every element of the collection |
| Tracking.Tracker.RemoveAll | src/main/java/io/github/zessi/utils/java_object_reader/java_object_reader/CircularReferencePrevention.java:89-91 | contents lose every element of the collection |
| Tracking.AddThenRemove | src/main/java/io/github/zessi/utils/java_object_reader/java_object_reader/CircularReferencePrevention.java:71-82 | adding an untracked object and removing it restores the contents |
| Rendering.BuildFieldMap | src/main/java/io/github/zessi/utils/java_object_reader/java_object_reader/NonPrimitiveObjectInfo.java:41-54 | the nested loops over the participating classes build FieldMapOf |
| Rendering.PutClassFields | src/main/java/io/github/zessi/utils/java_object_reader/java_object_reader/NonPrimitiveObjectInfo.java:50-53 | the loop over one class's declared fields computes PutDecls |
| Rendering.GetObjectInfo | src/main/java/io/github/zessi/utils/java_object_reader/java_object_reader/ObjectInfo.java:98-125 | fails with "null 2nd argument" for no options and "null 3rd argument" for no tracker, and otherwise returns Classify; the tracker is not modified |
| Rendering.RenderValue | src/main/java/io/github/zessi/utils/java_object_reader/java_object_reader/NonPrimitiveFieldInfo.java:33-35 | renders Render(v) and leaves the tracker as it found it |
| Rendering.FullStringOf | src/main/java/io/github/zessi/utils/java_object_reader/java_object_reader/StringRepresentable.java:26-28 | computes FullString and leaves the tracker unchanged |
| Rendering.ValueStringOf | src/main/java/io/github/zessi/utils/java_object_reader/java_object_reader/PrimitiveObjectInfo.java:24-28 | computes ValueString of each kind and leaves the tracker unchanged |
| Rendering.ArrayValueString | src/main/java/io/github/zessi/utils/java_object_reader/java_object_reader/ArrayObjectInfo.java:29-39 | computes the array value string and leaves the tracker unchanged |
| Rendering.JoinElements | src/main/java/io/github/zessi/utils/java_object_reader/java_object_reader/ArrayObjectInfo.java:30-38 | the index loop joins the element lines with ",\n" and leaves the tracker unchanged |
| Rendering.ElementLineOf | src/main/java/io/github/zessi/utils/java_object_reader/java_object_reader/ArrayObjectInfo.java:35-36 | one element's line, tracker unchanged |
| Rendering.CompositeValueString | src/main/java/io/github/zessi/utils/java_object_reader/java_object_reader/NonPrimitiveObjectInfo.java:77-109 | {} without fields, otherwise {, newline, the field lines joined by "," + newLine, newline, indents and }; tracker unchanged |
| Rendering.JoinFields | src/main/java/io/github/zessi/utils/java_object_reader/java_object_reader/NonPrimitiveObjectInfo.java:85-104 | the loop over the map joins the field lines and leaves the tracker as it was |
| Rendering.FieldLineAt | src/main/java/io/github/zessi/utils/java_object_reader/java_object_reader/NonPrimitiveObjectInfo.java:86-104 | the line of the i-th field, tracker unchanged |
| Rendering.FieldLineOf | src/main/java/io/github/zessi/utils/java_object_reader/java_object_reader/NonPrimitiveObjectInfo.java:87-103 | check, then add, render and remove: the line is FieldLine of the entry contents and the tracker is restored on exit |
| Rendering.FieldFullOf | src/main/java/io/github/zessi/utils/java_object_reader/java_object_reader/FieldInfo.java:186-197 | field metadata, fieldMetaValueSeparator and value; tracker unchanged |
| Rendering.FieldValueOf | src/main/java/io/github/zessi/utils/java_object_reader/java_object_reader/NonPrimitiveFieldInfo.java:33-35 | a literal for a value-type field, otherwise the value's full representation with the same tracker |
| Reader.GetDefaultOptions | src/main/java/io/github/zessi/utils/java_object_reader/java_object_reader/ObjectReader.java:37-39 | returns the Builder defaults |
| Reader.ReadString | src/main/java/io/github/zessi/utils/java_object_reader/java_object_reader/ObjectReader.java:26-30 | definition, no contract of its own: the root value rendered with nothing tracked; ReadLeafExamples gives its value on three inputs |
| Reader.Read | src/main/java/io/github/zessi/utils/java_object_reader/java_object_reader/ObjectReader.java:26-30 | fails exactly for null options; otherwise the representation from an empty tracker, and the null representation for null |
| Reader.ReadDefault | src/main/java/io/github/zessi/utils/java_object_reader/java_object_reader/ObjectReader.java:15-17 | read(o) is read(o, defaults) |
| Reader.ReadLeafExamples | src/main/java/io/github/zessi/utils/java_object_reader/java_object_reader/PrimitiveObjectInfo.java:24-28 | with the default options, the string "asd" reads as String:{"asd"}, the Integer 1010 as Integer:{1010} and the Character x as Character:{'x'}; the three strings are derived from the rendering code and the builder defaults, and the first two inputs are the ones the reading test prints |

## Left out

- Java reflection itself: `getDeclaredFields`, `setAccessible` inside `synchronized (field)`, `Array.get` and `Array.getLength`. The class table and heap stand in for them. A field's value is read once, into the FieldInfo.
- The swallowed `IllegalAccessException` and its `printStackTrace` (`FieldInfo.java:132-134`). A failed read leaves FieldInfo's value null whatever the declared type; a `Null` slot expresses it (`ObjectModel.FailedReadIsNull`). A missing slot stands for a field that was never assigned, which reads as its type's default (`ObjectModel.DefaultValue`). The diagnostic output is I/O.
- Fields.ConstructFieldInfo, Fields.GetFieldInfo: the IllegalArgumentException that `Field.get` (`FieldInfo.java:131`) throws for an instance field read from an object that is not an instance of the declaring class is not modelled; both promise success for any given object. Since the exception is not caught, Java leaves the constructor with it. The core never triggers it: `NonPrimitiveObjectInfo` reads each field from the object whose superclass chain supplied the declaring class (`NonPrimitiveObjectInfo.java:41-54`, and the chain in `ObjectInfos.FieldMapShadowing`).
- Thread safety: the `synchronized` methods of `CircularReferencePrevention`. The model is single-threaded.
- `HashSet` `equals`/`hashCode` semantics. `add` and `remove` use equality, `checkExists` uses identity, and the model uses object identity for all of them. A class whose `equals` identifies distinct objects could make `remove` drop a different object than the one added.
- Type-name strings: `getName`, `getSimpleName` and `getCanonicalName` are fields of a class-table entry, with the JVM's names only for boxes, primitives, String and array descriptors.
- `toString` of values: a value object carries its `toString` text. Floating-point formatting is not modelled.
- The order of `String.compareTo` is modelled on Dafny characters. Java compares UTF-16 code units, and the two orders differ for characters outside the Basic Multilingual Plane.
- Options with null strings: a null separator, indent or null representation would print as "null" in Java. The model's strings are never null.
- Accessors of `StringRepresentationOptions` and of the Builder are the datatype's and the class's fields, so that "they return the constructor arguments" holds by construction rather than as a lemma.
- Arrays that reach themselves through elements alone: the source recurses without end there. The model requires `ObjectModel.ArrayClosed` of every array.
- Exceptions thrown from deep inside a rendering: none can occur in the model, so the tracker's restoration on an exceptional exit is not modelled.
- `FieldInfo`'s `equals`-free getters (`getField`, `getOptions`, `getAssociatedObject`, ...) are the FieldInfo datatype's fields.
- `isPrimitive(Class)` on `char.class` as a runtime type (`PrimitiveObjectInfo.java:26`): no object has a primitive runtime class, so the model checks for `Character` alone.
- Test fixtures and `TestUtils.java` (random strings): they only print or generate data, and serve as example heaps at most.
- Fields.PrimitiveFieldValue: its own contract states only the null case. The quoting of the other cases is stated by `Fields.PrimitiveFieldValueUnquotes`.
- Representation.ElementLines: its own contract states only the number of lines. Their contents are stated by `Representation.ElementLinesPointwise` and `Representation.ElementLinesAt`.
- Representation.FieldLines: its own contract states only the number of lines. Their contents are stated by `Representation.FieldLinesPointwise` and `Representation.FieldLinesAt`.
