/** The reflective helpers of the reader: value-type tests on objects and
    classes, the array test, and the root-first superclass chain. */
module Utils {
  import opened Wrappers
  import opened ObjectModel

  /** The runtime class of a non-null value. */
  function RuntimeType(h: Store, v: Value): (t: Type)
    requires !v.Null? && ValueOk(h, v)
    ensures t.Named? || t.ArrayOf? <==> v.Ref?
    ensures v.Leaf? ==> t == (if v.cls.Str? then StringType else Wrapper(v.cls.kind))
  {
    match v
    case Leaf(Boxed(k), _) => Wrapper(k)
    case Leaf(Str, _) => StringType
    case Ref(id) =>
      match h[id]
      case Instance(c, _) => Named(c)
      case ArrayObj(comp, _) => ArrayOf(comp)
  }

  /** The runtime class of an object of a well-formed heap is a loaded type. */
  lemma RuntimeTypeOk(ct: ClassTable, h: Store, v: Value)
    requires HeapOk(ct, h) && ValueOk(h, v) && !v.Null?
    ensures TypeOk(ct, RuntimeType(h, v))
  {
    if v.Ref? {
      ObjectFacts(ct, h, v.id);
    }
  }

  /** isPrimitive(Class): one of the eight boxes, the eight primitive types or
      String. */
  function IsPrimitiveClass(t: Type): (b: bool)
    ensures b <==> IsValueType(t)
    ensures b ==> !t.ArrayOf? && !t.Named?
  {
    match t
    case Wrapper(_) => true
    case Primitive(_) => true
    case StringType => true
    case ArrayOf(_) => false
    case Named(_) => false
  }

  /** isPrimitive(Object): rejects null, otherwise tests the runtime class
      against the boxes and String. */
  function IsPrimitiveObject(h: Store, v: Value): (r: Result<bool>)
    requires ValueOk(h, v)
    ensures r.Failure? <==> v.Null?
    ensures r.Success? ==> (r.value <==> v.Leaf?)
  {
    if v.Null? then Failure(IllegalArgument("null input"))
    else
      var t := RuntimeType(h, v);
      Success(t.Wrapper? || t.StringType?)
  }

  /** The two overloads agree: an object is of a value type exactly when its
      runtime class is one of the seventeen value classes. */
  lemma PrimitiveObjectMatchesClass(h: Store, v: Value)
    requires ValueOk(h, v) && !v.Null?
    ensures IsPrimitiveObject(h, v) == Success(IsPrimitiveClass(RuntimeType(h, v)))
  {
  }

  /** isArray: the runtime class is an array class. */
  function IsArray(h: Store, v: Value): (b: bool)
    requires !v.Null? && ValueOk(h, v)
    ensures b <==> v.Ref? && h[v.id].ArrayObj?
  {
    RuntimeType(h, v).ArrayOf?
  }

  /** The reverse of a sequence, last element first. */
  function Reverse<T>(s: seq<T>): (r: seq<T>)
    ensures |r| == |s|
    ensures forall i | 0 <= i < |s| :: r[i] == s[|s| - 1 - i]
  {
    if |s| == 0 then [] else [s[|s| - 1]] + Reverse(s[..|s| - 1])
  }

  lemma ReverseSnoc<T>(s: seq<T>, x: T)
    ensures Reverse(s + [x]) == [x] + Reverse(s)
  {
    assert (s + [x])[..|s|] == s;
  }

  /** The superclass chain of class c, from the root class down to c itself. */
  function Ancestry(ct: ClassTable, c: ClassId): (r: seq<ClassId>)
    requires TableOk(ct) && c in ct
    ensures |r| >= 1 && r[|r| - 1] == c
    ensures forall i | 0 <= i < |r| :: r[i] in ct
    ensures ct[r[0]].superclass.None?
    ensures forall i | 0 < i < |r| :: ct[r[i]].superclass == Some(r[i - 1])
    decreases c
  {
    assert ClassOk(ct, c);
    match ct[c].superclass
    case None => [c]
    case Some(p) => Ancestry(ct, p) + [c]
  }

  /** The chain strictly ascends in loading order, so no class occurs twice. */
  lemma {:induction false} AncestryAscending(ct: ClassTable, c: ClassId)
    requires TableOk(ct) && c in ct
    ensures forall i, j | 0 <= i < j < |Ancestry(ct, c)| :: Ancestry(ct, c)[i] < Ancestry(ct, c)[j]
    decreases c
  {
    assert ClassOk(ct, c);
    match ct[c].superclass
    case None =>
    case Some(p) =>
      AncestryAscending(ct, p);
      var r := Ancestry(ct, c);
      var q := Ancestry(ct, p);
      assert r == q + [c];
      forall i, j | 0 <= i < j < |r| ensures r[i] < r[j] {
        if j == |r| - 1 {
          assert r[i] == q[i] <= p;
        }
      }
  }

  /** The chain is the only one with these properties: any sequence that ends in
      c, starts at a root and links each class to its superclass is Ancestry. */
  lemma {:induction false} AncestryUnique(ct: ClassTable, c: ClassId, s: seq<ClassId>)
    requires TableOk(ct) && c in ct
    requires |s| >= 1 && s[|s| - 1] == c && s[0] in ct && ct[s[0]].superclass.None?
    requires forall i | 0 < i < |s| :: s[i] in ct && ct[s[i]].superclass == Some(s[i - 1])
    ensures s == Ancestry(ct, c)
    decreases |s|
  {
    if |s| == 1 {
    } else {
      var p := s[|s| - 2];
      var s' := s[..|s| - 1];
      assert ct[c].superclass == Some(p);
      AncestryUnique(ct, p, s');
      assert s == s' + [c];
    }
  }

  /** getParticipatingClasses: walks the superclass links bottom-up, then
      reverses. The result has no repeated class, so keeping it in an
      insertion-ordered set loses nothing. */
  method GetParticipatingClasses(ct: ClassTable, c: ClassId) returns (r: Result<seq<ClassId>>)
    requires TableOk(ct) && c in ct
    ensures r.Failure? <==> ct[c].isInterface
    ensures r.Success? ==> r.value == Ancestry(ct, c)
  {
    if ct[c].isInterface {
      return Failure(IllegalArgument("inputClass is an interface"));
    }
    var result := [c];
    var current := c;
    while ct[current].superclass.Some?
      invariant current in ct
      invariant |result| >= 1 && result[|result| - 1] == current
      invariant Ancestry(ct, c) == Ancestry(ct, current) + Reverse(result)[1..]
      decreases current
    {
      assert ClassOk(ct, current);
      var parent := ct[current].superclass.value;
      ReverseSnoc(result, parent);
      assert Reverse(result) == [current] + Reverse(result)[1..];
      current := parent;
      result := result + [current];
    }
    var reversed := Reverse(result);
    assert reversed == [current] + reversed[1..];
    return Success(reversed);
  }
}
