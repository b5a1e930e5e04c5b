/** The modifier bits of java.lang.reflect.Modifier, which are the field
    access_flags of section 4.5 of The Java Virtual Machine Specification
    (ACC_STRICT from section 4.6), and the AccessModifier enum built on them. */
module Modifiers {

  const PUBLIC: bv32 := 0x0001
  const PRIVATE: bv32 := 0x0002
  const PROTECTED: bv32 := 0x0004
  const STATIC: bv32 := 0x0008
  const FINAL: bv32 := 0x0010
  const VOLATILE: bv32 := 0x0040
  const TRANSIENT: bv32 := 0x0080
  const STRICT: bv32 := 0x0800

  predicate IsPublic(m: bv32) { m & PUBLIC != 0 }
  predicate IsPrivate(m: bv32) { m & PRIVATE != 0 }
  predicate IsProtected(m: bv32) { m & PROTECTED != 0 }
  predicate IsStatic(m: bv32) { m & STATIC != 0 }
  predicate IsFinal(m: bv32) { m & FINAL != 0 }
  predicate IsVolatile(m: bv32) { m & VOLATILE != 0 }
  predicate IsTransient(m: bv32) { m & TRANSIENT != 0 }
  predicate IsStrict(m: bv32) { m & STRICT != 0 }

  /** The four access levels, each with its one-character representation. */
  datatype AccessModifier = Private | Package | Protected | Public
  {
    function Representation(): (c: char)
      ensures c in "icob"
    {
      match this
      case Private => 'i'
      case Package => 'c'
      case Protected => 'o'
      case Public => 'b'
    }
  }

  /** The four representation characters are distinct. */
  lemma RepresentationInjective(a: AccessModifier, b: AccessModifier)
    ensures a.Representation() == b.Representation() <==> a == b
  {
  }

  /** getAccessModifier: public wins over protected, protected over private,
      and a field with none of the three bits is package-private. */
  function GetAccessModifier(m: bv32): (a: AccessModifier)
    ensures a.Package? <==> !IsPublic(m) && !IsProtected(m) && !IsPrivate(m)
    ensures a.Public? <==> IsPublic(m)
    ensures a.Protected? <==> !IsPublic(m) && IsProtected(m)
    ensures a.Private? <==> !IsPublic(m) && !IsProtected(m) && IsPrivate(m)
  {
    var pub, prot, priv := IsPublic(m), IsProtected(m), IsPrivate(m);
    if pub then Public
    else if prot then Protected
    else if priv then Private
    else Package
  }

  /** With exactly one access bit set, as section 4.5 of The Java Virtual Machine
      Specification requires of a field, the matching level is returned. */
  lemma AccessOfSingleBit(m: bv32)
    ensures IsPublic(m) && !IsProtected(m) && !IsPrivate(m) ==> GetAccessModifier(m).Public?
    ensures !IsPublic(m) && IsProtected(m) && !IsPrivate(m) ==> GetAccessModifier(m).Protected?
    ensures !IsPublic(m) && !IsProtected(m) && IsPrivate(m) ==> GetAccessModifier(m).Private?
  {
  }

  /** Only the three access bits matter. */
  lemma AccessIgnoresOtherBits(m: bv32, other: bv32)
    requires other & (PUBLIC | PRIVATE | PROTECTED) == 0
    ensures GetAccessModifier(m | other) == GetAccessModifier(m)
  {
    assert (m | other) & PUBLIC == m & PUBLIC;
    assert (m | other) & PRIVATE == m & PRIVATE;
    assert (m | other) & PROTECTED == m & PROTECTED;
  }
}
