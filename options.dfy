/** StringRepresentationOptions: the immutable formatting record, its indentation
    helpers, and the mutable Builder that produces it. */
module RepresentationOptions {
  import opened Strings

  /** Java's 32-bit `int`. */
  newtype Int32 = x: int | -0x8000_0000 <= x < 0x8000_0000

  const INT32_MIN: Int32 := -0x8000_0000
  const INT32_MAX: Int32 := 0x7fff_ffff

  /** The eight constructor arguments, returned unchanged by the accessors
      (isFullTypeName, getFieldMetaValueSeparator, ..., getNullRepresentation). */
  datatype Options = Options(
    fullTypeName: bool,
    fieldMetaValueSeparator: string,
    objectMetaValueSeparator: string,
    indent: string,
    fieldMetaSeparator: string,
    newLine: string,
    indentCount: Int32,
    nullRepresentation: string)

  /** getIndents: `indent` repeated `indentCount` times, nothing for a count <= 0. */
  function Indents(o: Options): string
  {
    if o.indentCount <= 0 then "" else Repeat(o.indent, o.indentCount as nat)
  }

  /** The loop of getIndents, appending `indent` to a builder `indentCount` times. */
  method GetIndents(o: Options) returns (r: string)
    ensures r == Indents(o)
    ensures |r| == (if o.indentCount <= 0 then 0 else o.indentCount as int * |o.indent|)
  {
    var builder := "";
    var i: int := 0;
    while i < o.indentCount as int
      invariant 0 <= i
      invariant o.indentCount > 0 ==> i <= o.indentCount as int
      invariant o.indentCount <= 0 ==> i == 0
      invariant builder == Repeat(o.indent, i)
    {
      builder := builder + o.indent;
      i := i + 1;
    }
    r := builder;
    RepeatLength(o.indent, i);
  }

  /** `x + 1` in Java `int` arithmetic: two's complement, wrapping at INT32_MAX. */
  function Increment(x: Int32): (r: Int32)
    ensures (r as int - x as int - 1) % 0x1_0000_0000 == 0
    ensures x < INT32_MAX ==> r as int == x as int + 1
  {
    if x == INT32_MAX then INT32_MIN else x + 1
  }

  /** cloneAndAddIndent: a copy one indentation level deeper. */
  function CloneAndAddIndent(o: Options): (r: Options)
    ensures r.indentCount == Increment(o.indentCount)
    ensures r == o.(indentCount := r.indentCount)
  {
    Options(o.fullTypeName, o.fieldMetaValueSeparator, o.objectMetaValueSeparator, o.indent,
            o.fieldMetaSeparator, o.newLine, Increment(o.indentCount), o.nullRepresentation)
  }

  /** One level deeper adds exactly one indent, unless the count wraps around. */
  lemma AddIndentAppendsIndent(o: Options)
    requires 0 <= o.indentCount < INT32_MAX
    ensures Indents(CloneAndAddIndent(o)) == Indents(o) + o.indent
  {
    var n := o.indentCount as nat;
    assert Indents(CloneAndAddIndent(o)) == Repeat(o.indent, n + 1);
    if n == 0 {
      assert Repeat(o.indent, 1) == Repeat(o.indent, 0) + o.indent;
    }
  }

  /** At the largest count the copy wraps to INT32_MIN and loses all indentation. */
  lemma AddIndentWrapsAtMax(o: Options)
    requires o.indentCount == INT32_MAX && o.indent != ""
    ensures CloneAndAddIndent(o).indentCount == INT32_MIN
    ensures Indents(CloneAndAddIndent(o)) == "" != Indents(o)
  {
    RepeatLength(o.indent, INT32_MAX as nat);
  }

  /** The values a fresh Builder starts from. */
  function DefaultOptions(): Options
  {
    Options(false, "=", ":", "\t", "|", "\n", 0, "<null>")
  }

  /** StringRepresentationOptions.Builder: mutable counterparts of the eight
      options, chained setters, and get(). */
  class Builder {
    var fullTypeName: bool
    var fieldMetaValueSeparator: string
    var objectMetaValueSeparator: string
    var indent: string
    var fieldMetaSeparator: string
    var newLine: string
    var indentCount: Int32
    var nullRepresentation: string

    /** Builder.build(): a builder holding the defaults. */
    constructor Build()
      ensures fullTypeName == false && fieldMetaValueSeparator == "=" && objectMetaValueSeparator == ":"
      ensures indent == "\t" && fieldMetaSeparator == "|" && newLine == "\n"
      ensures indentCount == 0 && nullRepresentation == "<null>"
    {
      fullTypeName := false;
      fieldMetaValueSeparator := "=";
      objectMetaValueSeparator := ":";
      indent := "\t";
      fieldMetaSeparator := "|";
      newLine := "\n";
      indentCount := 0;
      nullRepresentation := "<null>";
    }

    /** The builder's current values, as an Options record. */
    function Current(): Options
      reads this
    {
      Options(fullTypeName, fieldMetaValueSeparator, objectMetaValueSeparator, indent,
              fieldMetaSeparator, newLine, indentCount, nullRepresentation)
    }

    /** get(): a new options record whose every attribute is the builder's current one. */
    method Get() returns (o: Options)
      ensures o.fullTypeName == fullTypeName && o.fieldMetaValueSeparator == fieldMetaValueSeparator
      ensures o.objectMetaValueSeparator == objectMetaValueSeparator && o.indent == indent
      ensures o.fieldMetaSeparator == fieldMetaSeparator && o.newLine == newLine
      ensures o.indentCount == indentCount && o.nullRepresentation == nullRepresentation
    {
      o := Options(fullTypeName, fieldMetaValueSeparator, objectMetaValueSeparator, indent,
                   fieldMetaSeparator, newLine, indentCount, nullRepresentation);
    }

    method SetFullTypeName(v: bool) returns (b: Builder)
      modifies this
      ensures b == this && Current() == old(Current()).(fullTypeName := v)
    {
      fullTypeName := v;
      b := this;
    }

    method SetFieldMetaValueSeparator(v: string) returns (b: Builder)
      modifies this
      ensures b == this && Current() == old(Current()).(fieldMetaValueSeparator := v)
    {
      fieldMetaValueSeparator := v;
      b := this;
    }

    method SetObjectMetaValueSeparator(v: string) returns (b: Builder)
      modifies this
      ensures b == this && Current() == old(Current()).(objectMetaValueSeparator := v)
    {
      objectMetaValueSeparator := v;
      b := this;
    }

    method SetIndent(v: string) returns (b: Builder)
      modifies this
      ensures b == this && Current() == old(Current()).(indent := v)
    {
      indent := v;
      b := this;
    }

    method SetFieldMetaSeparator(v: string) returns (b: Builder)
      modifies this
      ensures b == this && Current() == old(Current()).(fieldMetaSeparator := v)
    {
      fieldMetaSeparator := v;
      b := this;
    }

    method SetNewLine(v: string) returns (b: Builder)
      modifies this
      ensures b == this && Current() == old(Current()).(newLine := v)
    {
      newLine := v;
      b := this;
    }

    method SetIndentCount(v: Int32) returns (b: Builder)
      modifies this
      ensures b == this && Current() == old(Current()).(indentCount := v)
    {
      indentCount := v;
      b := this;
    }

    method SetNullRepresentation(v: string) returns (b: Builder)
      modifies this
      ensures b == this && Current() == old(Current()).(nullRepresentation := v)
    {
      nullRepresentation := v;
      b := this;
    }
  }

  /** A chained setter on a fresh builder changes exactly its own attribute of
      the record get() then returns. */
  method BuildWithFullTypeName(full: bool) returns (o: Options)
    ensures o == DefaultOptions().(fullTypeName := full)
  {
    var b := new Builder.Build();
    b := b.SetFullTypeName(full);
    o := b.Get();
  }
}
